/**
 * The java.lang.String operations the service relies on, with Java's semantics:
 * `indexOf`, `contains`, `split` (which keeps a leading empty piece, drops the
 * trailing empty ones, and returns the whole string when the separator does not
 * occur) and `isBlank`. Separators are literal strings; none of the separators the
 * service uses contains a regular-expression metacharacter.
 */
module JavaStrings {
  import opened Wrappers

  /** `sep` occurs in `s` starting at index `i`. */
  predicate OccursAt(s: string, sep: string, i: nat) {
    i + |sep| <= |s| && s[i..i + |sep|] == sep
  }

  /** `s.contains(sep)`. */
  predicate Contains(s: string, sep: string) {
    exists i: nat | i <= |s| :: OccursAt(s, sep, i)
  }

  /** First index at or after `from` where `sep` occurs in `s` (`s.indexOf(sep, from)`). */
  function IndexOfFrom(s: string, sep: string, from: nat): (r: Option<nat>)
    requires |sep| > 0
    decreases |s| - from
    ensures r.Some? ==> from <= r.value && OccursAt(s, sep, r.value)
    ensures r.Some? ==> forall j: nat :: from <= j < r.value ==> !OccursAt(s, sep, j)
    ensures r.None? ==> forall j: nat :: from <= j ==> !OccursAt(s, sep, j)
  {
    if from + |sep| > |s| then None
    else if OccursAt(s, sep, from) then Some(from)
    else IndexOfFrom(s, sep, from + 1)
  }

  /** `s.indexOf(sep)`: the first occurrence, which exists exactly when `s` contains `sep`. */
  function IndexOf(s: string, sep: string): (r: Option<nat>)
    requires |sep| > 0
    ensures r.Some? <==> Contains(s, sep)
    ensures r.Some? ==> OccursAt(s, sep, r.value) && forall j: nat :: j < r.value ==> !OccursAt(s, sep, j)
  {
    IndexOfFrom(s, sep, 0)
  }

  /** The pieces joined back together with `sep` between them. */
  function Join(parts: seq<string>, sep: string): string {
    if |parts| == 0 then ""
    else if |parts| == 1 then parts[0]
    else parts[0] + sep + Join(parts[1..], sep)
  }

  /** A prefix of `s` ending before the first occurrence of `sep` does not contain `sep`. */
  lemma {:induction false} PrefixBeforeFirstOccurrence(s: string, sep: string, i: nat)
    requires |sep| > 0 && i <= |s|
    requires forall j: nat :: j < i ==> !OccursAt(s, sep, j)
    ensures !Contains(s[..i], sep)
  {
    forall j: nat | OccursAt(s[..i], sep, j)
      ensures false
    {
      assert s[..i][j..j + |sep|] == s[j..j + |sep|];
      assert OccursAt(s, sep, j);
    }
  }

  /**
   * Every piece between two consecutive (leftmost, non-overlapping) occurrences of
   * `sep`, empty pieces included. Joining the pieces gives back `s`, and no piece
   * contains `sep`.
   */
  function RawSplit(s: string, sep: string): (r: seq<string>)
    requires |sep| > 0
    decreases |s|
    ensures |r| >= 1
    ensures Join(r, sep) == s
    ensures forall k :: 0 <= k < |r| ==> !Contains(r[k], sep)
  {
    match IndexOf(s, sep)
    case None => [s]
    case Some(i) =>
      PrefixBeforeFirstOccurrence(s, sep, i);
      var rest := RawSplit(s[i + |sep|..], sep);
      assert s == s[..i] + sep + s[i + |sep|..];
      [s[..i]] + rest
  }

  /** The pieces with every trailing empty piece removed. */
  function DropTrailingEmpty(parts: seq<string>): (r: seq<string>)
    ensures |r| <= |parts| && r == parts[..|r|]
    ensures |r| > 0 ==> r[|r| - 1] != ""
    ensures forall k :: |r| <= k < |parts| ==> parts[k] == ""
  {
    if |parts| > 0 && parts[|parts| - 1] == "" then DropTrailingEmpty(parts[..|parts| - 1])
    else parts
  }

  /** `s.split(sep)` with Java's semantics (limit 0). */
  function Split(s: string, sep: string): (r: seq<string>)
    requires |sep| > 0
    ensures !Contains(s, sep) ==> r == [s]
    ensures Contains(s, sep) ==> r == DropTrailingEmpty(RawSplit(s, sep))
  {
    if IndexOf(s, sep).None? then [s] else DropTrailingEmpty(RawSplit(s, sep))
  }

  /** `sep` repeated `k` times. */
  function Repeat(sep: string, k: nat): string {
    if k == 0 then "" else sep + Repeat(sep, k - 1)
  }

  lemma {:induction false} JoinTrailingEmpty(parts: seq<string>, sep: string, k: nat)
    requires |parts| > 0
    ensures Join(parts + seq(k, _ => ""), sep) == Join(parts, sep) + Repeat(sep, k)
    decreases |parts|, k
  {
    if |parts| == 1 {
      if k > 0 {
        var tail := seq(k, _ => "");
        assert (parts + tail)[1..] == [""] + seq(k - 1, _ => "");
        JoinTrailingEmpty([""], sep, k - 1);
        assert Join([""], sep) == "";
        assert Join(parts + tail, sep) == parts[0] + sep + Join([""] + seq(k - 1, _ => ""), sep);
      } else {
        assert parts + seq(k, _ => "") == parts;
      }
    } else {
      assert (parts + seq(k, _ => ""))[1..] == parts[1..] + seq(k, _ => "");
      JoinTrailingEmpty(parts[1..], sep, k);
    }
  }

  /**
   * When `s.split(sep)` yields exactly two pieces `a` and `b`, `s` is `a`, `sep`, `b`
   * followed by zero or more further copies of `sep` (the trailing empty pieces Java drops).
   */
  lemma {:induction false} SplitTwoShape(s: string, sep: string)
    requires |sep| > 0
    requires |Split(s, sep)| == 2
    ensures exists k: nat :: s == Split(s, sep)[0] + sep + Split(s, sep)[1] + Repeat(sep, k)
  {
    var raw := RawSplit(s, sep);
    var r := Split(s, sep);
    var k: nat := |raw| - 2;
    assert raw == r + seq(k, _ => "") by {
      assert r == raw[..2];
      forall i | 0 <= i < |raw| ensures raw[i] == (r + seq(k, _ => ""))[i] {}
    }
    JoinTrailingEmpty(r, sep, k);
    assert r[1..] == [r[1]];
    assert s == r[0] + sep + r[1] + Repeat(sep, k);
  }

  /**
   * Conversely `(a + sep + b).split(sep) == [a, b]` when the first occurrence of `sep`
   * is the one placed between them (none inside `a` or straddling its end) and `b` is
   * non-empty and free of `sep`.
   */
  lemma {:induction false} SplitOfJoinedPair(a: string, b: string, sep: string)
    requires |sep| > 0 && b != ""
    requires !Contains(a + sep[..|sep| - 1], sep)
    requires !Contains(b, sep)
    ensures Split(a + sep + b, sep) == [a, b]
  {
    var s := a + sep + b;
    assert OccursAt(s, sep, |a|) by { assert s[|a|..|a| + |sep|] == sep; }
    forall j: nat | j < |a|
      ensures !OccursAt(s, sep, j)
    {
      var t := a + sep[..|sep| - 1];
      assert s[j..j + |sep|] == t[j..j + |sep|];
      assert !OccursAt(t, sep, j);
    }
    assert IndexOf(s, sep) == Some(|a|);
    assert s[..|a|] == a;
    assert s[|a| + |sep|..] == b;
    assert RawSplit(b, sep) == [b];
    assert RawSplit(s, sep) == [a, b];
  }

  /** Splitting a join on a one-character separator gives the pieces back, when no piece contains it. */
  lemma {:induction false} RawSplitOfJoin(parts: seq<string>, sep: string)
    requires |sep| == 1 && |parts| >= 1
    requires forall k :: 0 <= k < |parts| ==> !Contains(parts[k], sep)
    ensures RawSplit(Join(parts, sep), sep) == parts
    decreases |parts|
  {
    if |parts| == 1 {
      assert Join(parts, sep) == parts[0];
    } else {
      var a := parts[0];
      var rest := Join(parts[1..], sep);
      var s := a + sep + rest;
      assert Join(parts, sep) == s;
      assert OccursAt(s, sep, |a|) by { assert s[|a|..|a| + 1] == sep; }
      forall j: nat | j < |a|
        ensures !OccursAt(s, sep, j)
      {
        assert s[j..j + 1] == a[j..j + 1];
        assert !OccursAt(a, sep, j);
      }
      assert IndexOf(s, sep) == Some(|a|);
      assert s[..|a|] == a;
      assert s[|a| + 1..] == rest;
      RawSplitOfJoin(parts[1..], sep);
      assert parts == [a] + parts[1..];
    }
  }

  /**
   * `String.join(sep, parts).split(sep) == parts` for a one-character separator, when
   * no piece contains it and the last piece is non-empty (so no trailing piece is dropped).
   */
  lemma SplitOfJoin(parts: seq<string>, sep: string)
    requires |sep| == 1 && |parts| >= 1 && parts[|parts| - 1] != ""
    requires forall k :: 0 <= k < |parts| ==> !Contains(parts[k], sep)
    ensures Split(Join(parts, sep), sep) == parts
  {
    RawSplitOfJoin(parts, sep);
    if |parts| > 1 {
      var s := Join(parts, sep);
      assert s == parts[0] + sep + Join(parts[1..], sep);
      assert OccursAt(s, sep, |parts[0]|) by { assert s[|parts[0]|..|parts[0]| + 1] == sep; }
    } else {
      assert Join(parts, sep) == parts[0];
    }
  }

  /** Removing a character from a join removes it from the separator only, when no piece holds it. */
  lemma {:induction false} RemoveCharJoin(parts: seq<string>, sep: string, c: char)
    requires forall k, i :: 0 <= k < |parts| && 0 <= i < |parts[k]| ==> parts[k][i] != c
    ensures RemoveChar(Join(parts, sep), c) == Join(parts, RemoveChar(sep, c))
    decreases |parts|
  {
    if |parts| == 1 {
      assert forall i :: 0 <= i < |parts[0]| ==> parts[0][i] != c;
    } else if |parts| > 1 {
      assert forall i :: 0 <= i < |parts[0]| ==> parts[0][i] != c;
      RemoveCharJoin(parts[1..], sep, c);
      RemoveCharConcat(parts[0] + sep, Join(parts[1..], sep), c);
      RemoveCharConcat(parts[0], sep, c);
    }
  }

  /** The decimal digits of a natural number, most significant first, without leading zeros. */
  function NaturalDecimal(n: nat): (r: string)
    ensures |r| > 0 && forall i :: 0 <= i < |r| ==> '0' <= r[i] <= '9'
    decreases n
  {
    if n < 10 then ["0123456789"[n]]
    else NaturalDecimal(n / 10) + ["0123456789"[n % 10]]
  }

  /** `Long.toString(n)`: a minus sign for a negative number, then its digits. */
  function LongToString(n: int): (r: string)
    ensures |r| > 0 && forall i :: 0 <= i < |r| ==> r[i] == '-' || '0' <= r[i] <= '9'
  {
    if n < 0 then "-" + NaturalDecimal(-n) else NaturalDecimal(n)
  }

  /** `Character.isWhitespace`: the Unicode space separators other than the no-break ones, and the ASCII controls Java counts. */
  predicate IsJavaWhitespace(c: char) {
    || c == ' ' || c == '\t' || c == '\n' || c == '\U{B}' || c == '\U{C}' || c == '\r'
    || ('\U{1C}' <= c <= '\U{1F}')
    || c == '\U{1680}' || ('\U{2000}' <= c <= '\U{2006}') || ('\U{2008}' <= c <= '\U{200A}')
    || c == '\U{2028}' || c == '\U{2029}' || c == '\U{205F}' || c == '\U{3000}'
  }

  /** `s.isBlank()`: empty or only whitespace. */
  predicate IsBlank(s: string) {
    forall i :: 0 <= i < |s| ==> IsJavaWhitespace(s[i])
  }

  /** `s.replace(String.valueOf(c), "")`: every occurrence of `c` removed. */
  function RemoveChar(s: string, c: char): (r: string)
    ensures forall i :: 0 <= i < |r| ==> r[i] != c
    ensures |r| <= |s|
    ensures (forall i :: 0 <= i < |s| ==> s[i] != c) ==> r == s
  {
    if |s| == 0 then ""
    else (if s[0] == c then "" else [s[0]]) + RemoveChar(s[1..], c)
  }

  lemma {:induction false} RemoveCharConcat(a: string, b: string, c: char)
    ensures RemoveChar(a + b, c) == RemoveChar(a, c) + RemoveChar(b, c)
  {
    if |a| > 0 {
      assert (a + b)[1..] == a[1..] + b;
      RemoveCharConcat(a[1..], b, c);
    } else {
      assert a + b == b;
    }
  }
}
