/**
 * The few java.lang behaviours the modelled code depends on: the exceptions it
 * can raise, `String.split(",")` and `String.trim()`.
 */
module JavaLang {

  /** Exceptions that escape from the modelled Java code. */
  datatype JavaException =
    | UnsupportedOperation(message: string)  // java.lang.UnsupportedOperationException
    | NullPointer                            // java.lang.NullPointerException
    | IndexOutOfBounds                       // array, list and string index exceptions

  /** Glues pieces back together with commas: the inverse of SplitAll. */
  function JoinWithCommas(pieces: seq<string>): string
    requires |pieces| >= 1
  {
    if |pieces| == 1 then pieces[0] else pieces[0] + [','] + JoinWithCommas(pieces[1..])
  }

  /** Every piece between commas, keeping empty pieces. */
  function SplitAll(s: string): (pieces: seq<string>)
    ensures |pieces| >= 1
    ensures forall k :: 0 <= k < |pieces| ==> ',' !in pieces[k]
    ensures JoinWithCommas(pieces) == s
    decreases |s|
  {
    if s == [] then [""]
    else
      var rest := SplitAll(s[1..]);
      if s[0] == ',' then
        assert ([""] + rest)[1..] == rest;
        [""] + rest
      else
        var first := [s[0]] + rest[0];
        assert ([first] + rest[1..])[1..] == rest[1..];
        assert s == [s[0]] + s[1..];
        [first] + rest[1..]
  }

  /** Drops the empty pieces at the end, as Java's split does. */
  function DropTrailingEmpty(pieces: seq<string>): (r: seq<string>)
    ensures r <= pieces
    ensures forall k :: |r| <= k < |pieces| ==> pieces[k] == ""
    ensures |r| > 0 ==> r[|r| - 1] != ""
  {
    if |pieces| == 0 then []
    else if pieces[|pieces| - 1] == "" then DropTrailingEmpty(pieces[..|pieces| - 1])
    else pieces
  }

  /**
   * Java's `s.split(",")`: the pieces between commas with trailing empty pieces
   * removed; a string without any comma yields itself as the only piece.
   */
  function Split(s: string): (pieces: seq<string>)
    ensures pieces <= SplitAll(s)
    ensures forall k :: |pieces| <= k < |SplitAll(s)| ==> SplitAll(s)[k] == ""
    ensures ',' !in s ==> pieces == [s]
    ensures ',' in s && |pieces| > 0 ==> pieces[|pieces| - 1] != ""
    ensures forall k :: 0 <= k < |pieces| ==> ',' !in pieces[k]
  {
    var all := SplitAll(s);
    if |all| == 1 then all else DropTrailingEmpty(all)
  }

  /** Characters that Java's `trim` removes: every code point up to U+0020. */
  predicate IsTrimmable(c: char) {
    c <= ' '
  }

  /** Removes the trimmable characters at the front. */
  function TrimStart(s: string): (t: string)
    ensures |t| <= |s| && t == s[|s| - |t|..]
    ensures forall k :: 0 <= k < |s| - |t| ==> IsTrimmable(s[k])
    ensures |t| > 0 ==> !IsTrimmable(t[0])
  {
    if |s| > 0 && IsTrimmable(s[0]) then
      var t := TrimStart(s[1..]);
      assert s[1..][|s| - 1 - |t|..] == s[|s| - |t|..];
      assert forall k :: 1 <= k < |s| - |t| ==> s[k] == s[1..][k - 1];
      t
    else s
  }

  /** Removes the trimmable characters at the back. */
  function TrimEnd(s: string): (t: string)
    ensures t <= s
    ensures forall k :: |t| <= k < |s| ==> IsTrimmable(s[k])
    ensures |t| > 0 ==> !IsTrimmable(t[|t| - 1])
  {
    if |s| > 0 && IsTrimmable(s[|s| - 1]) then TrimEnd(s[..|s| - 1]) else s
  }

  /** Java's `s.trim()`. */
  function Trim(s: string): (t: string)
    ensures |t| <= |s|
    ensures exists i :: Surrounds(s, i, t)
    ensures |t| > 0 ==> !IsTrimmable(t[0]) && !IsTrimmable(t[|t| - 1])
    ensures t == [] <==> forall k :: 0 <= k < |s| ==> IsTrimmable(s[k])
  {
    var front := TrimStart(s);
    TrimSpan(s, front, TrimEnd(front));
    TrimEmpty(s, front, TrimEnd(front));
    TrimEnd(front)
  }

  /** `t` sits at index `i` of `s` with only trimmable characters around it. */
  predicate Surrounds(s: string, i: int, t: string) {
    && 0 <= i <= |s| - |t| && t == s[i..i + |t|]
    && (forall k :: 0 <= k < i ==> IsTrimmable(s[k]))
    && (forall k :: i + |t| <= k < |s| ==> IsTrimmable(s[k]))
  }

  /** Trimming the back of a front-trimmed suffix `front` of `s` leaves a slice of `s` with only trimmable characters around it. */
  lemma TrimSpan(s: string, front: string, t: string)
    requires |front| <= |s| && front == s[|s| - |front|..]
    requires forall k :: 0 <= k < |s| - |front| ==> IsTrimmable(s[k])
    requires t <= front
    requires forall k :: |t| <= k < |front| ==> IsTrimmable(front[k])
    ensures Surrounds(s, |s| - |front|, t)
  {
    var i := |s| - |front|;
    assert forall k :: 0 <= k < |t| ==> t[k] == front[k] == s[i + k];
    assert forall k :: i + |t| <= k < |s| ==> s[k] == front[k - i];
  }

  /** Trimming leaves nothing exactly when every character is trimmable. */
  lemma TrimEmpty(s: string, front: string, t: string)
    requires |front| <= |s| && front == s[|s| - |front|..]
    requires forall k :: 0 <= k < |s| - |front| ==> IsTrimmable(s[k])
    requires |front| > 0 ==> !IsTrimmable(front[0])
    requires t <= front
    requires forall k :: |t| <= k < |front| ==> IsTrimmable(front[k])
    ensures t == [] <==> forall k :: 0 <= k < |s| ==> IsTrimmable(s[k])
  {
    if forall k :: 0 <= k < |s| ==> IsTrimmable(s[k]) {
      if |front| > 0 {
        assert front[0] == s[|s| - |front|];
      }
    }
  }

  /** Java's `s.startsWith(c)` for a one-character prefix. */
  predicate StartsWith(s: string, c: char) {
    |s| > 0 && s[0] == c
  }

  /** Java's `s.endsWith(c)` for a one-character suffix. */
  predicate EndsWith(s: string, c: char) {
    |s| > 0 && s[|s| - 1] == c
  }

  /** A string that already starts and ends with visible characters is its own trim. */
  lemma TrimKeepsVisibleEnds(s: string)
    requires |s| > 0 && !IsTrimmable(s[0]) && !IsTrimmable(s[|s| - 1])
    ensures Trim(s) == s
  {
    assert TrimStart(s) == s;
  }

  /** A comma-free prefix is glued onto the first piece of what follows it. */
  lemma {:induction false} SplitAllCommaFreePrefix(a: string, t: string)
    requires ',' !in a
    ensures SplitAll(a + t) == [a + SplitAll(t)[0]] + SplitAll(t)[1..]
    decreases |a|
  {
    if a == [] {
      assert a + t == t;
      assert a + SplitAll(t)[0] == SplitAll(t)[0];
      assert SplitAll(t) == [SplitAll(t)[0]] + SplitAll(t)[1..];
    } else {
      var s := a + t;
      assert s[0] == a[0] && s[1..] == a[1..] + t;
      SplitAllCommaFreePrefix(a[1..], t);
      var rest := SplitAll(s[1..]);
      assert rest == [a[1..] + SplitAll(t)[0]] + SplitAll(t)[1..];
      assert rest[0] == a[1..] + SplitAll(t)[0] && rest[1..] == SplitAll(t)[1..];
      assert SplitAll(s) == [[s[0]] + rest[0]] + rest[1..];
      assert [a[0]] + (a[1..] + SplitAll(t)[0]) == a + SplitAll(t)[0];
    }
  }

  /** A string without commas splits into itself. */
  lemma SplitAllCommaFree(s: string)
    requires ',' !in s
    ensures SplitAll(s) == [s]
  {
    SplitAllCommaFreePrefix(s, "");
    assert s + "" == s;
  }

  /** `"a,b".split(",")` is `[a, b]` when neither piece holds a comma and `b` is not empty. */
  lemma SplitTwoPieces(a: string, b: string)
    requires ',' !in a && ',' !in b && b != ""
    ensures Split(a + [','] + b) == [a, b]
  {
    var t := [','] + b;
    SplitAllCommaFreePrefix(a, t);
    assert t[1..] == b;
    SplitAllCommaFree(b);
    assert SplitAll(t) == [""] + [b];
    assert a + [','] + b == a + t;
    assert SplitAll(a + t) == [a + "", b];
    assert a + "" == a;
  }
}
