/** String helpers the coordinator and the downloader rely on: Rust's
    `str::trim` (to decide whether a new segment is blank), `u16::to_string`
    (for the export hash) and the space-joined id list of the downloader. */
module Text {

  /** Rust's `char::is_whitespace`: the Unicode White_Space property. */
  predicate IsWhitespace(c: char) {
    var n := c as int;
    (9 <= n <= 13) || n == 0x20 || n == 0x85 || n == 0xA0 || n == 0x1680
    || (0x2000 <= n <= 0x200A) || n == 0x2028 || n == 0x2029 || n == 0x202F
    || n == 0x205F || n == 0x3000
  }

  predicate AllWhitespace(s: string) {
    forall i :: 0 <= i < |s| ==> IsWhitespace(s[i])
  }

  /** The number of leading whitespace characters. */
  function LeadingWhitespace(s: string): (k: nat)
    ensures k <= |s|
    ensures forall i :: 0 <= i < k ==> IsWhitespace(s[i])
    ensures k < |s| ==> !IsWhitespace(s[k])
  {
    if s != [] && IsWhitespace(s[0]) then
      var k := LeadingWhitespace(s[1..]);
      assert forall i :: 1 <= i < k + 1 ==> s[i] == s[1..][i - 1];
      1 + k
    else 0
  }

  /** `str::trim_start`: drops the leading whitespace and nothing else. */
  function TrimStart(s: string): (r: string)
    ensures |r| <= |s| && r == s[|s| - |r|..]
    ensures AllWhitespace(s[..|s| - |r|])
    ensures r == [] || !IsWhitespace(r[0])
    ensures r == [] <==> AllWhitespace(s)
  {
    var k := LeadingWhitespace(s);
    assert forall i :: 0 <= i < k ==> s[..k][i] == s[i];
    s[k..]
  }

  /** `str::trim_end`: drops the trailing whitespace and nothing else. */
  function TrimEnd(s: string): (r: string)
    ensures |r| <= |s| && r == s[..|r|]
    ensures AllWhitespace(s[|r|..])
    ensures r == [] || !IsWhitespace(r[|r| - 1])
    ensures r == [] <==> AllWhitespace(s)
  {
    if s != [] && IsWhitespace(s[|s| - 1]) then
      var r := TrimEnd(s[..|s| - 1]);
      assert s[..|s| - 1][|r|..] == s[|r|..|s| - 1];
      assert s[|r|..] == s[|r|..|s| - 1] + [s[|s| - 1]];
      r
    else s
  }

  /** `str::trim`: no whitespace left at either end. */
  function Trim(s: string): (r: string)
    ensures |r| <= |s|
    ensures r == [] || (!IsWhitespace(r[0]) && !IsWhitespace(r[|r| - 1]))
  {
    var t := TrimStart(s);
    var r := TrimEnd(t);
    assert r != [] ==> r[0] == t[0];
    r
  }

  /** The trimmed string is a contiguous piece of `s` with only whitespace
      around it. */
  lemma TrimIsSlice(s: string)
    ensures exists i :: 0 <= i && i + |Trim(s)| <= |s| && Trim(s) == s[i..i + |Trim(s)|] &&
                        AllWhitespace(s[..i]) && AllWhitespace(s[i + |Trim(s)|..])
  {
    var k := LeadingWhitespace(s);
    var t := TrimStart(s);
    assert t == s[k..];
    var r := TrimEnd(t);
    assert r == Trim(s);
    SuffixSlices(s, k, |r|);
    assert r == s[k..k + |r|];
    assert AllWhitespace(s[..k]);
    assert AllWhitespace(s[k + |r|..]);
  }

  /** Slices of a suffix are slices of the whole. */
  lemma SuffixSlices<T>(s: seq<T>, i: nat, n: nat)
    requires i + n <= |s|
    ensures s[i..][..n] == s[i..i + n] && s[i..][n..] == s[i + n..]
  {
  }

  /** `s.trim().is_empty()` holds exactly when every character of `s` is
      whitespace. */
  lemma TrimEmptyIffBlank(s: string)
    ensures Trim(s) == [] <==> AllWhitespace(s)
  {
  }

  /** The decimal digit for `d`. */
  function DigitChar(d: nat): char
    requires d < 10
  {
    "0123456789"[d]
  }

  function DigitValue(c: char): nat {
    if '0' <= c <= '9' then (c as int - '0' as int) as nat else 0
  }

  predicate IsDigit(c: char) {
    '0' <= c <= '9'
  }

  /** `to_string` of an unsigned integer: its decimal digits, most
      significant first, without leading zeros. */
  function Decimal(n: nat): (r: string)
    ensures |r| >= 1
    ensures forall i :: 0 <= i < |r| ==> IsDigit(r[i])
    ensures r[0] == '0' ==> n == 0
    ensures |r| > 1 ==> r[0] != '0'
    ensures n == 0 ==> r == "0"
  {
    if n < 10 then [DigitChar(n)] else Decimal(n / 10) + [DigitChar(n % 10)]
  }

  /** Reads a string of decimal digits back as a number. */
  function DecimalValue(s: string): nat {
    if s == [] then 0 else 10 * DecimalValue(s[..|s| - 1]) + DigitValue(s[|s| - 1])
  }

  /** `to_string` loses nothing: reading the digits back gives the number. */
  lemma {:induction false} DecimalRoundTrip(n: nat)
    ensures DecimalValue(Decimal(n)) == n
  {
    if n >= 10 {
      DecimalRoundTrip(n / 10);
      var d := Decimal(n / 10) + [DigitChar(n % 10)];
      assert d[..|d| - 1] == Decimal(n / 10);
    }
  }

  /** Two numbers with the same decimal rendering are equal. */
  lemma DecimalInjective(m: nat, n: nat)
    requires Decimal(m) == Decimal(n)
    ensures m == n
  {
    DecimalRoundTrip(m);
    DecimalRoundTrip(n);
  }

  /** The downloader's fold: every id followed by one space. */
  function FoldWithSpaces(ids: seq<string>): (r: string)
    ensures ids == [] ==> r == ""
    ensures ids != [] ==> r != [] && r[|r| - 1] == ' '
    ensures |r| >= |ids|
  {
    if ids == [] then "" else FoldWithSpaces(ids[..|ids| - 1]) + ids[|ids| - 1] + " "
  }

  /** `String::pop`: removes the last character, if any. */
  function Pop(s: string): (r: string)
    ensures s == [] ==> r == []
    ensures s != [] ==> r + [s[|s| - 1]] == s
  {
    if s == [] then s else s[..|s| - 1]
  }


  /** Reference definition: the ids separated by single spaces. */
  function JoinWithSpaces(ids: seq<string>): string {
    if ids == [] then ""
    else if |ids| == 1 then ids[0]
    else ids[0] + " " + JoinWithSpaces(ids[1..])
  }

  lemma {:induction false} JoinSnoc(ids: seq<string>, x: string)
    requires ids != []
    ensures JoinWithSpaces(ids + [x]) == JoinWithSpaces(ids) + " " + x
  {
    if |ids| == 1 {
      assert ids + [x] == [ids[0], x];
      assert (ids + [x])[1..] == [x];
    } else {
      assert (ids + [x])[1..] == ids[1..] + [x];
      JoinSnoc(ids[1..], x);
    }
  }

  lemma {:induction false} FoldIsJoinPlusSpace(ids: seq<string>)
    requires ids != []
    ensures FoldWithSpaces(ids) == JoinWithSpaces(ids) + " "
  {
    var init := ids[..|ids| - 1];
    var last := ids[|ids| - 1];
    if init == [] {
      assert ids == [last];
    } else {
      FoldIsJoinPlusSpace(init);
      JoinSnoc(init, last);
      assert init + [last] == ids;
    }
  }

  /** `inline_urls`: the fold with its superfluous last space removed,
      which is the ids separated by single spaces: no leading, trailing or
      doubled separator. */
  function InlineUrls(ids: seq<string>): (r: string)
    ensures r == JoinWithSpaces(ids)
  {
    var r := Pop(FoldWithSpaces(ids));
    assert r == JoinWithSpaces(ids) by {
      if ids != [] {
        FoldIsJoinPlusSpace(ids);
        assert (JoinWithSpaces(ids) + " ")[..|JoinWithSpaces(ids) + " "| - 1] == JoinWithSpaces(ids);
      }
    }
    r
  }

  /** Splitting on single spaces, the inverse of `JoinWithSpaces`. */
  function SplitOnSpaces(s: string): (r: seq<string>)
    ensures |r| >= 1
  {
    if s == [] then [""]
    else if s[0] == ' ' then [""] + SplitOnSpaces(s[1..])
    else
      var rest := SplitOnSpaces(s[1..]);
      [[s[0]] + rest[0]] + rest[1..]
  }

  predicate NoSpace(s: string) {
    forall i :: 0 <= i < |s| ==> s[i] != ' '
  }

  lemma {:induction false} SplitWord(w: string, tail: string)
    requires NoSpace(w)
    ensures SplitOnSpaces(w + tail) == [w + SplitOnSpaces(tail)[0]] + SplitOnSpaces(tail)[1..]
  {
    if w != [] {
      assert (w + tail)[1..] == w[1..] + tail;
      SplitWord(w[1..], tail);
      assert [w[0]] + (w[1..] + SplitOnSpaces(tail)[0]) == w + SplitOnSpaces(tail)[0];
    } else {
      assert w + tail == tail;
      var r := SplitOnSpaces(tail);
      assert w + r[0] == r[0];
      assert [w + r[0]] + r[1..] == r;
    }
  }

  /** When no id contains a space, the joined string splits back into
      exactly the ids. */
  lemma {:induction false} JoinSplitRoundTrip(ids: seq<string>)
    requires ids != []
    requires forall i :: 0 <= i < |ids| ==> NoSpace(ids[i])
    ensures SplitOnSpaces(JoinWithSpaces(ids)) == ids
  {
    if |ids| == 1 {
      SplitWord(ids[0], "");
      assert ids[0] + "" == ids[0];
    } else {
      JoinSplitRoundTrip(ids[1..]);
      var tail := " " + JoinWithSpaces(ids[1..]);
      assert ids[0] + " " + JoinWithSpaces(ids[1..]) == ids[0] + tail;
      SplitWord(ids[0], tail);
      assert tail[1..] == JoinWithSpaces(ids[1..]);
      assert SplitOnSpaces(tail) == [""] + ids[1..];
      assert ids[0] + "" == ids[0];
      assert [ids[0]] + ids[1..] == ids;
    }
  }
}
