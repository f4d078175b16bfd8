/** What the source takes from its JavaScript host: `Math.exp`, `Math.log(2)`,
    `Math.log10`, and the date parsing of `new Date(text)`. They are supplied
    as values; `Lawful` lists the only facts the model assumes of them. */
module Host {
  import opened Wrappers

  /** A calendar day, counted in days since 1970-01-01 (UTC). */
  type Day = int

  /** 2024-01-13, the election day the source hard-codes. */
  const ElectionDay: Day := 19735

  datatype Host = Host(
    exp: real -> real,               // Math.exp
    ln2: real,                       // Math.log(2)
    log10: real -> real,             // Math.log10
    parseDate: string -> Option<Day> // new Date(text); None for an Invalid Date
  )

  ghost predicate Lawful(h: Host)
  {
    && h.exp(0.0) == 1.0
    && (forall x :: h.exp(x) > 0.0)
    && (forall x, y :: x < y ==> h.exp(x) < h.exp(y))
    && h.ln2 > 0.0
    && h.exp(-h.ln2) == 0.5
    && h.log10(1.0) == 0.0
    && (forall x, y :: 0.0 < x < y ==> h.log10(x) < h.log10(y))
  }
}
