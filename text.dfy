/** The JavaScript string operations the source uses: `trim`, `includes`,
    `startsWith`, and the two kinds of global regular-expression replacement
    (`/\s+/g` and a bracketed group `/（[^）]*）/g`) with an empty replacement. */
module Text {
  import Seqs

  /** The characters `String.prototype.trim` and the regular-expression class
      `\s` treat as white space: ECMAScript's WhiteSpace and LineTerminator. */
  predicate IsWhitespace(c: char)
  {
    var n := c as int;
    || n == 0x09 || n == 0x0A || n == 0x0B || n == 0x0C || n == 0x0D
    || n == 0x20 || n == 0xA0 || n == 0x1680 || (0x2000 <= n <= 0x200A)
    || n == 0x2028 || n == 0x2029 || n == 0x202F || n == 0x205F
    || n == 0x3000 || n == 0xFEFF
  }

  predicate NotWhitespace(c: char)
  {
    !IsWhitespace(c)
  }

  ghost predicate HasNoWhitespace(s: string)
  {
    forall i :: 0 <= i < |s| ==> !IsWhitespace(s[i])
  }

  /** `s.trim()`: drops white space at both ends. */
  function Trim(s: string): (r: string)
    ensures |r| <= |s|
    ensures r == [] || (!IsWhitespace(r[0]) && !IsWhitespace(r[|r| - 1]))
    decreases |s|
  {
    if s == [] then []
    else if IsWhitespace(s[0]) then Trim(s[1..])
    else if IsWhitespace(s[|s| - 1]) then Trim(s[..|s| - 1])
    else s
  }

  /** Trimming leaves something exactly when the string is not all white space. */
  lemma {:induction false} TrimEmptyIffBlank(s: string)
    ensures Trim(s) == [] <==> forall i :: 0 <= i < |s| ==> IsWhitespace(s[i])
    decreases |s|
  {
    if s == [] {
    } else if IsWhitespace(s[0]) {
      TrimEmptyIffBlank(s[1..]);
      assert forall i :: 1 <= i < |s| ==> s[i] == s[1..][i - 1];
    } else if IsWhitespace(s[|s| - 1]) {
      TrimEmptyIffBlank(s[..|s| - 1]);
    }
  }

  /** A string without white space is its own trim. */
  lemma TrimNoWhitespace(s: string)
    requires HasNoWhitespace(s)
    ensures Trim(s) == s
  {
  }

  /** `s.startsWith(p)`. */
  predicate IsPrefix(p: string, s: string)
  {
    |p| <= |s| && s[..|p|] == p
  }

  /** `key` occurs in `s` starting at offset `i`. */
  predicate OccursAt(s: string, key: string, i: nat)
  {
    i + |key| <= |s| && s[i..i + |key|] == key
  }

  /** `s.includes(key)`: `key` occurs in `s` at some offset. */
  predicate Contains(s: string, key: string)
    decreases |s|
  {
    IsPrefix(key, s) || (s != [] && Contains(s[1..], key))
  }

  /** `Contains` finds exactly the occurrences at some offset. */
  lemma {:induction false} ContainsAt(s: string, key: string)
    ensures Contains(s, key) <==> exists i: nat :: OccursAt(s, key, i)
    decreases |s|
  {
    if s != [] {
      ContainsAt(s[1..], key);
      if Contains(s[1..], key) {
        var i: nat :| OccursAt(s[1..], key, i);
        assert s[1..][i..i + |key|] == s[i + 1..i + 1 + |key|];
        assert OccursAt(s, key, i + 1);
      }
      if i: nat :| OccursAt(s, key, i) {
        if i > 0 {
          assert s[1..][i - 1..i - 1 + |key|] == s[i..i + |key|];
          assert OccursAt(s[1..], key, i - 1);
        } else {
          assert IsPrefix(key, s);
        }
      }
    }
    if IsPrefix(key, s) {
      assert OccursAt(s, key, 0);
    }
    if s == [] && exists i: nat :: OccursAt(s, key, i) {
      assert key == [];
    }
  }

  /** A string that lacks one of the characters of `key` does not contain
      `key`. */
  lemma {:induction false} ContainsNeedsChar(s: string, key: string, c: char)
    requires c in key && c !in s
    ensures !Contains(s, key)
    decreases |s|
  {
    var k :| 0 <= k < |key| && key[k] == c;
    assert !IsPrefix(key, s) by {
      if |key| <= |s| {
        assert s[..|key|][k] == s[k];
      }
    }
    if s != [] {
      assert c !in s[1..];
      ContainsNeedsChar(s[1..], key, c);
    }
  }

  /** An occurrence of a string brings an occurrence of each of its tails. */
  lemma ContainsSuffix(s: string, key: string, k: nat)
    requires k <= |key| && Contains(s, key)
    ensures Contains(s, key[k..])
  {
    ContainsAt(s, key);
    ContainsAt(s, key[k..]);
    var i: nat :| OccursAt(s, key, i);
    assert s[i + k..i + k + |key[k..]|] == key[k..];
    assert OccursAt(s, key[k..], i + k);
  }

  /** Every white-space character removed, as a global replacement of
      white-space runs by nothing does. */
  function RemoveWhitespace(s: string): (r: string)
    ensures HasNoWhitespace(r)
    ensures |r| <= |s|
  {
    Seqs.Filter(s, NotWhitespace)
  }

  /** No `open` is followed, anywhere later, by a `close`: the regular
      expression `open [^close]* close` has no match. */
  ghost predicate NoClosedGroup(s: string, open: char, close: char)
  {
    forall i, j :: 0 <= i < j < |s| && s[i] == open ==> s[j] != close
  }

  /** Putting a character in front keeps a string free of groups, unless it
      opens one that the string closes. */
  lemma ConsNoClosedGroup(x: char, s: string, open: char, close: char)
    requires NoClosedGroup(s, open, close)
    requires x == open ==> close !in s
    ensures NoClosedGroup([x] + s, open, close)
  {
    var r := [x] + s;
    forall i, j | 0 <= i < j < |r| && r[i] == open ensures r[j] != close {
      if i == 0 {
        assert r[j] in s;
      } else {
        assert r[i] == s[i - 1] && r[j] == s[j - 1];
      }
    }
  }

  /** Position of the first `c` in `s`. */
  function IndexOf(s: string, c: char): (k: nat)
    requires c in s
    ensures k < |s| && s[k] == c && c !in s[..k]
  {
    if s[0] == c then 0 else 1 + IndexOf(s[1..], c)
  }

  /** A global replacement, by nothing, of each bracket group: scanning left to right, an `open`
      that some later `close` follows is deleted together with everything up to
      and including the first such `close`; an `open` with no `close` after it
      stays. */
  function RemoveGroups(s: string, open: char, close: char): (r: string)
    requires open != close
    ensures |r| <= |s|
    ensures forall c :: c in r ==> c in s
    ensures NoClosedGroup(r, open, close)
    ensures open !in s ==> r == s
    decreases |s|
  {
    if s == [] then []
    else if s[0] == open && close in s[1..] then
      var tail := s[IndexOf(s[1..], close) + 2..];
      assert forall c :: c in tail ==> c in s;
      RemoveGroups(tail, open, close)
    else
      var rest := RemoveGroups(s[1..], open, close);
      ConsNoClosedGroup(s[0], rest, open, close);
      [s[0]] + rest
  }

  /** Where nothing matches, the replacement changes nothing. */
  lemma {:induction false} RemoveGroupsUnchanged(s: string, open: char, close: char)
    requires open != close && NoClosedGroup(s, open, close)
    ensures RemoveGroups(s, open, close) == s
    decreases |s|
  {
    if s != [] {
      if s[0] == open {
        assert close !in s[1..] by {
          forall j | 0 <= j < |s[1..]| ensures s[1..][j] != close {
            assert s[j + 1] == s[1..][j];
          }
        }
      }
      assert NoClosedGroup(s[1..], open, close) by {
        forall i, j | 0 <= i < j < |s[1..]| && s[1..][i] == open ensures s[1..][j] != close {
          assert s[1..][i] == s[i + 1] && s[1..][j] == s[j + 1];
        }
      }
      RemoveGroupsUnchanged(s[1..], open, close);
    }
  }

  /** Text before the first `open` is kept as it is, in front of what the
      replacement makes of the rest. */
  lemma {:induction false} RemoveGroupsKeepsPrefix(a: string, t: string, open: char, close: char)
    requires open != close && open !in a
    ensures RemoveGroups(a + t, open, close) == a + RemoveGroups(t, open, close)
    decreases |a|
  {
    if a == [] {
      assert a + t == t;
    } else {
      var s := a + t;
      assert s[0] == a[0] != open && s[1..] == a[1..] + t;
      assert open !in a[1..];
      RemoveGroupsKeepsPrefix(a[1..], t, open, close);
      calc {
        RemoveGroups(s, open, close);
        [a[0]] + RemoveGroups(a[1..] + t, open, close);
        [a[0]] + (a[1..] + RemoveGroups(t, open, close));
        { Seqs.AppendAssoc([a[0]], a[1..], RemoveGroups(t, open, close)); }
        ([a[0]] + a[1..]) + RemoveGroups(t, open, close);
        { assert [a[0]] + a[1..] == a; }
        a + RemoveGroups(t, open, close);
      }
    }
  }

  /** A group, from its `open` to the first `close` after it, disappears
      whole, and the replacement goes on after it. */
  lemma RemoveGroupsDropsGroup(g: string, t: string, open: char, close: char)
    requires open != close && close !in g
    ensures RemoveGroups([open] + g + [close] + t, open, close) == RemoveGroups(t, open, close)
  {
    var s := [open] + g + [close] + t;
    var rest := s[1..];
    assert rest == g + [close] + t;
    assert rest[|g|] == close;
    var k := IndexOf(rest, close);
    assert k == |g|;
    assert s[k + 2..] == t;
  }

  /** An `open` that no `close` follows stays, with the rest of the text. */
  lemma RemoveGroupsKeepsUnclosed(t: string, open: char, close: char)
    requires open != close && close !in t
    ensures RemoveGroups([open] + t, open, close) == [open] + t
  {
    var s := [open] + t;
    assert s[1..] == t;
    assert NoClosedGroup(t, open, close) by {
      forall i, j | 0 <= i < j < |t| && t[i] == open ensures t[j] != close {
        assert t[j] in t;
      }
    }
    RemoveGroupsUnchanged(t, open, close);
  }

  /** Deleting groups of one kind cannot create a group of another kind. */
  lemma {:induction false} RemoveGroupsKeepsNoClosedGroup(s: string, open: char, close: char, o: char, c: char)
    requires open != close && NoClosedGroup(s, o, c)
    ensures NoClosedGroup(RemoveGroups(s, open, close), o, c)
    decreases |s|
  {
    if s != [] {
      if s[0] == open && close in s[1..] {
        var k := IndexOf(s[1..], close) + 2;
        assert NoClosedGroup(s[k..], o, c) by {
          forall i, j | 0 <= i < j < |s[k..]| && s[k..][i] == o ensures s[k..][j] != c {
            assert s[k..][i] == s[i + k] && s[k..][j] == s[j + k];
          }
        }
        RemoveGroupsKeepsNoClosedGroup(s[k..], open, close, o, c);
      } else {
        assert NoClosedGroup(s[1..], o, c) by {
          forall i, j | 0 <= i < j < |s[1..]| && s[1..][i] == o ensures s[1..][j] != c {
            assert s[1..][i] == s[i + 1] && s[1..][j] == s[j + 1];
          }
        }
        RemoveGroupsKeepsNoClosedGroup(s[1..], open, close, o, c);
        var rest := RemoveGroups(s[1..], open, close);
        if s[0] == o {
          assert c !in s[1..] by {
            forall m | 0 <= m < |s[1..]| ensures s[1..][m] != c {
              assert s[1..][m] == s[m + 1];
            }
          }
        }
        ConsNoClosedGroup(s[0], rest, o, c);
      }
    }
  }

  /** Deleting white space cannot create a group either. */
  lemma {:induction false} FilterKeepsNoClosedGroup(s: string, keep: char -> bool, o: char, c: char)
    requires NoClosedGroup(s, o, c)
    ensures NoClosedGroup(Seqs.Filter(s, keep), o, c)
    decreases |s|
  {
    if s != [] {
      var init := s[..|s| - 1];
      assert NoClosedGroup(init, o, c);
      FilterKeepsNoClosedGroup(init, keep, o, c);
      var f := Seqs.Filter(init, keep);
      var r := Seqs.Filter(s, keep);
      if keep(s[|s| - 1]) {
        assert r == f + [s[|s| - 1]];
        if s[|s| - 1] == c {
          assert o !in init by {
            forall m | 0 <= m < |init| ensures init[m] != o {
              assert init[m] == s[m];
            }
          }
          assert o !in f;
        }
      }
    }
  }
}
