/**
 * String helpers that both the recovery-key formatter and the recovery-key
 * input field are built from: `s.replace(/-/g, "")`, slicing into groups,
 * and `Array.prototype.join`; and the JavaScript white space that
 * `String.prototype.trim` cuts and `parseInt` skips.
 */
module Text {

  /** `s.replace(/c/g, "")`, or `s.filter(x => x !== c)`. */
  function RemoveAll<T(==)>(s: seq<T>, c: T): (t: seq<T>)
    ensures |t| <= |s|
    ensures forall i :: 0 <= i < |t| ==> t[i] != c
  {
    if s == [] then [] else (if s[0] == c then [] else [s[0]]) + RemoveAll(s[1..], c)
  }

  lemma {:induction false} RemoveAllAppend<T>(a: seq<T>, b: seq<T>, c: T)
    ensures RemoveAll(a + b, c) == RemoveAll(a, c) + RemoveAll(b, c)
  {
    if a != [] {
      var head := if a[0] == c then [] else [a[0]];
      assert (a + b)[0] == a[0] && (a + b)[1..] == a[1..] + b;
      RemoveAllAppend(a[1..], b, c);
      assert RemoveAll(a + b, c) == head + (RemoveAll(a[1..], c) + RemoveAll(b, c));
      assert RemoveAll(a, c) == head + RemoveAll(a[1..], c);
    } else {
      assert a + b == b;
    }
  }

  lemma {:induction false} RemoveAllAbsent<T>(s: seq<T>, c: T)
    requires forall i :: 0 <= i < |s| ==> s[i] != c
    ensures RemoveAll(s, c) == s
  {
    if s != [] {
      RemoveAllAbsent(s[1..], c);
    }
  }

  /** Every entry other than `c` keeps its number of copies; `c` has none left. */
  lemma {:induction false} RemoveAllCounts<T>(s: seq<T>, c: T)
    ensures multiset(RemoveAll(s, c)) == multiset(s)[c := 0]
  {
    if s != [] {
      RemoveAllCounts(s[1..], c);
      assert s == [s[0]] + s[1..];
    }
  }

  /** Removing an entry that is there shortens the sequence. */
  lemma {:induction false} RemoveAllShorter<T>(s: seq<T>, c: T)
    requires c in s
    ensures |RemoveAll(s, c)| < |s|
  {
    if s[0] != c {
      RemoveAllShorter(s[1..], c);
    }
  }

  /** `s.slice(i, i + n)` for i = 0, n, 2n, … while i < |s|. */
  function Chunks(s: string, n: nat): (parts: seq<string>)
    requires n > 0
    ensures forall k :: 0 <= k < |parts| ==> 0 < |parts[k]| <= n
    decreases |s|
  {
    if s == [] then [] else if |s| <= n then [s] else [s[..n]] + Chunks(s[n..], n)
  }

  /** One step of the slicing loop: the group at `i`, then the groups after it. */
  lemma ChunksStep(s: string, n: nat, i: nat)
    requires n > 0 && i < |s|
    ensures i + n <= |s| ==> Chunks(s[i..], n) == [s[i..i + n]] + Chunks(s[i + n..], n)
    ensures i + n > |s| ==> Chunks(s[i..], n) == [s[i..]]
  {
    var t := s[i..];
    if i + n == |s| {
      assert s[i..i + n] == t;
      assert s[i + n..] == [];
    } else if i + n < |s| {
      assert t[..n] == s[i..i + n];
      assert t[n..] == s[i + n..];
    }
  }

  /** The slicing loop's invariant is kept by one more step of `i += n`. */
  lemma ChunksLoopStep(s: string, n: nat, groups: seq<string>, i: nat)
    requires n > 0 && i < |s|
    requires groups + Chunks(s[i..], n) == Chunks(s, n)
    ensures var next := groups + [s[i..if i + n <= |s| then i + n else |s|]];
      (i + n <= |s| ==> next + Chunks(s[i + n..], n) == Chunks(s, n)) && (i + n > |s| ==> next == Chunks(s, n))
  {
    ChunksStep(s, n, i);
    if i + n <= |s| {
      assert groups + [s[i..i + n]] + Chunks(s[i + n..], n) == groups + Chunks(s[i..], n);
    } else {
      assert s[i..|s|] == s[i..];
    }
  }

  /** `parts.join(sep)`. */
  function Join(parts: seq<string>, sep: string): string
  {
    if parts == [] then [] else if |parts| == 1 then parts[0] else parts[0] + sep + Join(parts[1..], sep)
  }

  /** Groups of `n` characters separated by `-`: the layout of a recovery key. */
  function Grouped(s: string, n: nat): string
    requires n > 0
  {
    Join(Chunks(s, n), "-")
  }

  /** Removing the separators from a grouped string gives the string back. */
  lemma {:induction false} UngroupGrouped(s: string, n: nat)
    requires n > 0
    requires forall i :: 0 <= i < |s| ==> s[i] != '-'
    ensures RemoveAll(Grouped(s, n), '-') == s
    decreases |s|
  {
    if |s| <= n {
      RemoveAllAbsent(s, '-');
    } else {
      var head, tail := s[..n], s[n..];
      assert Chunks(s, n) == [head] + Chunks(tail, n);
      assert Chunks(tail, n) != [];
      assert Grouped(s, n) == head + "-" + Grouped(tail, n);
      RemoveAllAppend(head + "-", Grouped(tail, n), '-');
      RemoveAllAppend(head, "-", '-');
      RemoveAllAbsent(head, '-');
      UngroupGrouped(tail, n);
      assert s == head + tail;
    }
  }

  /** A string of `4 m` characters groups into `m` blocks and `5 m - 1` characters, with `-` exactly at positions 4, 9, 14, …. */
  lemma {:induction false} GroupedLayout(s: string, m: nat)
    requires m >= 1 && |s| == 4 * m
    requires forall i :: 0 <= i < |s| ==> s[i] != '-'
    ensures |Chunks(s, 4)| == m
    ensures |Grouped(s, 4)| == 5 * m - 1
    ensures forall i :: 0 <= i < |Grouped(s, 4)| ==> (Grouped(s, 4)[i] == '-' <==> i % 5 == 4)
    ensures forall i :: 0 <= i < |Grouped(s, 4)| && i % 5 != 4 ==> Grouped(s, 4)[i] == s[i - i / 5]
    decreases m
  {
    var g := Grouped(s, 4);
    if m > 1 {
      var head, tail := s[..4], s[4..];
      assert Chunks(s, 4) == [head] + Chunks(tail, 4);
      GroupedLayout(tail, m - 1);
      var gt := Grouped(tail, 4);
      assert g == head + "-" + gt;
      forall i | 0 <= i < |g|
        ensures (g[i] == '-' <==> i % 5 == 4)
        ensures i % 5 != 4 ==> g[i] == s[i - i / 5]
      {
        if i >= 5 {
          assert g[i] == gt[i - 5];
          assert (i - 5) % 5 == i % 5;
          assert (i - 5) - (i - 5) / 5 == i - i / 5 - 4;
        }
      }
    }
  }

  // ---------------------------------------------------------------------
  // `String.prototype.trim` and the white space `parseInt` skips

  /** The characters `String.prototype.trim` removes: white space and line terminators. */
  predicate IsJsWhitespace(c: char)
  {
    c == '\t' || c == '\n' || c == '\U{000B}' || c == '\U{000C}' || c == '\r' || c == ' '
    || c == '\U{00A0}' || c == '\U{1680}' || ('\U{2000}' <= c <= '\U{200A}')
    || c == '\U{2028}' || c == '\U{2029}' || c == '\U{202F}' || c == '\U{205F}'
    || c == '\U{3000}' || c == '\U{FEFF}'
  }

  /** The text after its leading white space. */
  function TrimStart(s: string): string
  {
    if s != [] && IsJsWhitespace(s[0]) then TrimStart(s[1..]) else s
  }

  /** `TrimStart` cuts a prefix of white space, and what is left does not start with white space. */
  lemma {:induction false} TrimStartCuts(s: string)
    ensures |TrimStart(s)| <= |s| && TrimStart(s) == s[|s| - |TrimStart(s)|..]
    ensures forall i :: 0 <= i < |s| - |TrimStart(s)| ==> IsJsWhitespace(s[i])
    ensures TrimStart(s) != [] ==> !IsJsWhitespace(TrimStart(s)[0])
    decreases |s|
  {
    if s != [] && IsJsWhitespace(s[0]) {
      TrimStartCuts(s[1..]);
      assert forall i :: 1 <= i < |s| ==> s[i] == s[1..][i - 1];
    }
  }

  /** The text before its trailing white space. */
  function TrimEnd(s: string): string
  {
    if s != [] && IsJsWhitespace(s[|s| - 1]) then TrimEnd(s[..|s| - 1]) else s
  }

  /** `TrimEnd` cuts a suffix of white space, and what is left does not end with white space. */
  lemma {:induction false} TrimEndCuts(s: string)
    ensures |TrimEnd(s)| <= |s| && TrimEnd(s) == s[..|TrimEnd(s)|]
    ensures forall i :: |TrimEnd(s)| <= i < |s| ==> IsJsWhitespace(s[i])
    ensures TrimEnd(s) != [] ==> !IsJsWhitespace(TrimEnd(s)[|TrimEnd(s)| - 1])
    decreases |s|
  {
    if s != [] && IsJsWhitespace(s[|s| - 1]) {
      TrimEndCuts(s[..|s| - 1]);
    }
  }

  /** How many leading white-space characters `s.trim()` cuts away. */
  function TrimOffset(s: string): (offset: nat)
    ensures offset <= |s|
  {
    TrimStartCuts(s);
    |s| - |TrimStart(s)|
  }

  /** `s.trim()`: the text without its leading and trailing white space. */
  function Trim(s: string): string
  {
    TrimEnd(TrimStart(s))
  }

  /** `s.trim()` is a slice of `s` with white space neither first nor last, and only white space is cut away. */
  lemma TrimCuts(s: string)
    ensures TrimOffset(s) + |Trim(s)| <= |s| && Trim(s) == s[TrimOffset(s)..TrimOffset(s) + |Trim(s)|]
    ensures forall k :: 0 <= k < TrimOffset(s) ==> IsJsWhitespace(s[k])
    ensures forall k :: TrimOffset(s) + |Trim(s)| <= k < |s| ==> IsJsWhitespace(s[k])
    ensures Trim(s) != [] ==> !IsJsWhitespace(Trim(s)[0]) && !IsJsWhitespace(Trim(s)[|Trim(s)| - 1])
  {
    var start := TrimStart(s);
    TrimStartCuts(s);
    var i := |s| - |start|;
    var t := TrimEnd(start);
    TrimEndCuts(start);
    assert t == s[i..i + |t|];
    forall k | i + |t| <= k < |s|
      ensures IsJsWhitespace(s[k])
    {
      assert s[k] == start[k - i];
    }
  }

  /** Trimming twice trims nothing more. */
  lemma TrimIdempotent(s: string)
    ensures Trim(Trim(s)) == Trim(s)
  {
    var t := Trim(s);
    TrimCuts(s);
    if t != [] {
      assert TrimStart(t) == t;
      assert TrimEnd(t) == t;
    }
    assert Trim(t) == TrimEnd(TrimStart(t));
  }
}
