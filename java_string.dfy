/**
 * The two pieces of `java.lang.String` behaviour the order workflow relies on:
 * `s.split(",")` and commons-lang `StringUtils.isBlank(s)`.
 */
module JavaString {

  /** The index of the first comma of `s`. */
  function FirstComma(s: string): (i: nat)
    requires ',' in s
    ensures i < |s| && s[i] == ','
    ensures ',' !in s[..i]
  {
    if s[0] == ',' then 0
    else
      assert s == [s[0]] + s[1..];
      var j := FirstComma(s[1..]);
      assert s[..1 + j] == [s[0]] + s[1..][..j];
      1 + j
  }

  /** Every comma-separated piece of `s`, empty ones included: one more piece than `s` has commas. */
  function SplitAll(s: string): (r: seq<string>)
    ensures |r| >= 1
    ensures forall k :: 0 <= k < |r| ==> ',' !in r[k]
    decreases |s|
  {
    if ',' in s then
      var i := FirstComma(s);
      [s[..i]] + SplitAll(s[i + 1..])
    else
      [s]
  }

  /** `r` without its trailing empty strings. */
  function DropTrailingEmpty(r: seq<string>): (t: seq<string>)
    ensures t <= r
    ensures t == [] || t[|t| - 1] != ""
    ensures forall k :: |t| <= k < |r| ==> r[k] == ""
  {
    if r != [] && r[|r| - 1] == "" then DropTrailingEmpty(r[..|r| - 1]) else r
  }

  /**
   * Java's `s.split(",")`: a string without a comma is its own single piece (even when it
   * is empty); otherwise the comma-separated pieces with the trailing empty ones removed.
   */
  function Split(s: string): (r: seq<string>)
    ensures forall k :: 0 <= k < |r| ==> ',' !in r[k]
    ensures ',' !in s ==> r == [s]
    ensures ',' in s ==> r <= SplitAll(s) && (r == [] || r[|r| - 1] != "")
    ensures ',' in s ==> forall k :: |r| <= k < |SplitAll(s)| ==> SplitAll(s)[k] == ""
  {
    if ',' in s then DropTrailingEmpty(SplitAll(s)) else [s]
  }

  /** The pieces joined back together with commas. */
  function Join(pieces: seq<string>): string
    requires |pieces| >= 1
  {
    if |pieces| == 1 then pieces[0] else pieces[0] + "," + Join(pieces[1..])
  }

  /** Splitting at every comma loses nothing: joining the pieces gives the string back. */
  lemma {:induction false} JoinSplitAll(s: string)
    ensures Join(SplitAll(s)) == s
    decreases |s|
  {
    if ',' in s {
      var i := FirstComma(s);
      JoinSplitAll(s[i + 1..]);
      assert SplitAll(s)[1..] == SplitAll(s[i + 1..]);
      assert s == s[..i] + "," + s[i + 1..];
    }
  }

  /** In `head + "," + rest` with a comma-free `head`, the first comma is the one after `head`. */
  lemma FirstCommaAfter(head: string, rest: string)
    requires ',' !in head
    ensures ',' in head + "," + rest
    ensures FirstComma(head + "," + rest) == |head|
  {
    var s := head + "," + rest;
    assert s[|head|] == ',';
    assert s[..|head|] == head;
  }

  /** Splitting `head + "," + rest` at every comma, with a comma-free `head`, gives `head` first. */
  lemma SplitAllCons(head: string, rest: string)
    requires ',' !in head
    ensures SplitAll(head + "," + rest) == [head] + SplitAll(rest)
  {
    var s := head + "," + rest;
    FirstCommaAfter(head, rest);
    assert s[..|head|] == head;
    assert s[|head| + 1..] == rest;
  }

  /** Joining comma-free pieces and splitting at every comma gives the pieces back. */
  lemma {:induction false} SplitAllJoin(pieces: seq<string>)
    requires |pieces| >= 1
    requires forall k :: 0 <= k < |pieces| ==> ',' !in pieces[k]
    ensures SplitAll(Join(pieces)) == pieces
  {
    if |pieces| > 1 {
      SplitAllJoin(pieces[1..]);
      SplitAllCons(pieces[0], Join(pieces[1..]));
      assert pieces == [pieces[0]] + pieces[1..];
    }
  }

  /**
   * Java's split inverts a comma join exactly when the last piece is not empty
   * (or there is only one piece): the request string "S1,S2" gives ["S1", "S2"].
   */
  lemma SplitJoin(pieces: seq<string>)
    requires |pieces| >= 1
    requires forall k :: 0 <= k < |pieces| ==> ',' !in pieces[k]
    requires |pieces| == 1 || pieces[|pieces| - 1] != ""
    ensures Split(Join(pieces)) == pieces
  {
    SplitAllJoin(pieces);
    if |pieces| > 1 {
      var s := Join(pieces);
      assert s == pieces[0] + "," + Join(pieces[1..]);
      assert s[|pieces[0]|] == ',';
    }
  }

  /**
   * Java's `Character.isWhitespace` on a character, as of Java 9 (Unicode 6.3 onwards):
   * space, tab through carriage return, the four separator controls, and the Unicode space,
   * line and paragraph separators except the non-breaking ones.
   */
  predicate IsWhitespace(c: char)
  {
    || c == ' '
    || ('\t' <= c <= '\r')
    || ('\U{1C}' <= c <= '\U{1F}')
    || c == '\U{1680}'
    || ('\U{2000}' <= c <= '\U{2006}')
    || ('\U{2008}' <= c <= '\U{200A}')
    || c == '\U{2028}' || c == '\U{2029}' || c == '\U{205F}' || c == '\U{3000}'
  }

  /**
   * commons-lang `StringUtils.isBlank` on a non-null string: scan from the front and stop at
   * the first character that is not whitespace; a string with none is blank, the empty
   * string included.
   */
  predicate IsBlank(s: string)
    ensures IsBlank(s) <==> forall k :: 0 <= k < |s| ==> IsWhitespace(s[k])
    ensures !IsBlank(s) <==> exists k :: 0 <= k < |s| && !IsWhitespace(s[k])
  {
    |s| == 0 || (IsWhitespace(s[0]) && IsBlank(s[1..]))
  }

  /**
   * The empty string and strings of ASCII controls or Unicode spaces are blank; the
   * non-breaking spaces (no-break, figure, narrow) are not, nor is anything with a digit.
   */
  lemma BlankCases()
    ensures IsBlank("") && IsBlank(" \t\n\r") && IsBlank("\U{3000}\U{2028}")
    ensures !IsBlank("\U{A0}") && !IsBlank("\U{2007}") && !IsBlank("\U{202F}")
    ensures !IsBlank(" 1 ")
  {
    assert !IsWhitespace(" 1 "[1]);
    assert !IsWhitespace("\U{A0}"[0]) && !IsWhitespace("\U{2007}"[0]) && !IsWhitespace("\U{202F}"[0]);
  }
}
