/** The runtime-version string pinned on the root project: the first three
    components of the interpreter's version tuple, each written as a
    decimal integer, joined with ".". */
module PythonVersion {
  import opened Wrappers

  predicate IsDigit(c: char) {
    '0' <= c <= '9'
  }

  predicate AllDigits(s: string) {
    forall i :: 0 <= i < |s| ==> IsDigit(s[i])
  }

  function DigitChar(d: nat): (c: char)
    requires d < 10
    ensures IsDigit(c)
  {
    ('0' as int + d) as char
  }

  function DigitValue(c: char): (d: nat)
    requires IsDigit(c)
    ensures d < 10 && DigitChar(d) == c
  {
    c as int - '0' as int
  }

  /** `str(n)` for a non-negative integer: its decimal digits, with no
      leading zero except for "0" itself. */
  function NatToString(n: nat): (s: string)
    ensures |s| >= 1 && AllDigits(s)
    ensures s[0] == '0' ==> n == 0 && s == "0"
    decreases n
  {
    if n < 10 then [DigitChar(n)]
    else NatToString(n / 10) + [DigitChar(n % 10)]
  }

  /** The value of a decimal digit string (the empty string reads as 0). */
  function ParseNat(s: string): nat
    requires AllDigits(s)
    decreases |s|
  {
    if |s| == 0 then 0
    else 10 * ParseNat(s[..|s| - 1]) + DigitValue(s[|s| - 1])
  }

  /** Reading back the decimal text of a number gives the number. */
  lemma {:induction false} ParseNatToString(n: nat)
    ensures ParseNat(NatToString(n)) == n
    decreases n
  {
    var s := NatToString(n);
    if n >= 10 {
      ParseNatToString(n / 10);
      assert s[..|s| - 1] == NatToString(n / 10);
    }
  }

  /** `".".join(parts)`. */
  function JoinDot(parts: seq<string>): string
    decreases |parts|
  {
    if |parts| == 0 then ""
    else if |parts| == 1 then parts[0]
    else parts[0] + "." + JoinDot(parts[1..])
  }

  /** `s.split(".")`: the maximal dot-free pieces between dots. */
  function SplitDot(s: string): (r: seq<string>)
    ensures |r| >= 1
    decreases |s|
  {
    if |s| == 0 then [""]
    else
      var rest := SplitDot(s[1..]);
      if s[0] == '.' then [""] + rest
      else [[s[0]] + rest[0]] + rest[1..]
  }

  /** The components `version_info[:3]` keeps: the first three, or all of
      them when there are fewer. */
  function Leading3(info: seq<nat>): (r: seq<nat>)
    ensures |r| == if |info| < 3 then |info| else 3
    ensures r <= info
  {
    if |info| < 3 then info else info[..3]
  }

  /** The decimal text of every component. */
  function Texts(info: seq<nat>): (r: seq<string>)
    ensures |r| == |info|
  {
    seq(|info|, i requires 0 <= i < |info| => NatToString(info[i]))
  }

  /** The version string the handler pins on the root project. */
  function PythonVersions(info: seq<nat>): (s: string)
    ensures forall k :: 0 <= k < |s| ==> IsDigit(s[k]) || s[k] == '.'
    ensures s == "" <==> |info| == 0
  {
    var texts := Texts(Leading3(info));
    assert forall i :: 0 <= i < |texts| ==> |texts[i]| >= 1 && AllDigits(texts[i]);
    JoinDotAlphabet(texts);
    JoinDotEmpty(texts);
    JoinDot(texts)
  }

  /** Reads a dotted version string back into its components; `None` when a
      piece is not a non-empty run of decimal digits. */
  function ParseVersion(s: string): Option<seq<nat>>
  {
    if s == "" then Some([])
    else
      var pieces := SplitDot(s);
      if forall i :: 0 <= i < |pieces| ==> |pieces[i]| > 0 && AllDigits(pieces[i]) then
        Some(seq(|pieces|, i requires 0 <= i < |pieces| && AllDigits(pieces[i]) => ParseNat(pieces[i])))
      else None
  }

  // ---------------------------------------------------------------------
  // Split undoes Join

  lemma {:induction false} SplitDotFree(a: string)
    requires '.' !in a
    ensures SplitDot(a) == [a]
    decreases |a|
  {
    if |a| > 0 {
      SplitDotFree(a[1..]);
      assert [a[0]] + a[1..] == a;
    }
  }

  lemma {:induction false} SplitDotAfter(a: string, b: string)
    requires '.' !in a
    ensures SplitDot(a + "." + b) == [a] + SplitDot(b)
    decreases |a|
  {
    if |a| == 0 {
      assert a + "." + b == "." + b;
      assert ("." + b)[1..] == b;
    } else {
      assert (a + "." + b)[1..] == a[1..] + "." + b;
      SplitDotAfter(a[1..], b);
      assert [a[0]] + a[1..] == a;
    }
  }

  lemma {:induction false} SplitJoin(parts: seq<string>)
    requires |parts| >= 1
    requires forall i :: 0 <= i < |parts| ==> '.' !in parts[i]
    ensures SplitDot(JoinDot(parts)) == parts
    decreases |parts|
  {
    if |parts| == 1 {
      SplitDotFree(parts[0]);
    } else {
      SplitDotAfter(parts[0], JoinDot(parts[1..]));
      SplitJoin(parts[1..]);
    }
  }

  lemma {:induction false} JoinDotEmpty(parts: seq<string>)
    requires forall i :: 0 <= i < |parts| ==> |parts[i]| >= 1
    ensures JoinDot(parts) == "" <==> |parts| == 0
    decreases |parts|
  {
    if |parts| > 1 {
      assert |JoinDot(parts)| >= |parts[0]|;
    }
  }

  /** The pinned version string is the first three version components in
      decimal, dot-separated: reading it back yields exactly
      `version_info[:3]`. */
  lemma PythonVersionsRoundTrip(info: seq<nat>)
    ensures ParseVersion(PythonVersions(info)) == Some(Leading3(info))
  {
    var lead := Leading3(info);
    var texts := Texts(lead);
    forall i | 0 <= i < |texts|
      ensures '.' !in texts[i] && |texts[i]| >= 1 && AllDigits(texts[i])
    {
      assert AllDigits(NatToString(lead[i]));
    }
    JoinDotEmpty(texts);
    if |lead| > 0 {
      SplitJoin(texts);
      var parsed := seq(|texts|, i requires 0 <= i < |texts| && AllDigits(texts[i]) => ParseNat(texts[i]));
      forall i | 0 <= i < |texts|
        ensures parsed[i] == lead[i]
      {
        ParseNatToString(lead[i]);
      }
      assert parsed == lead;
    }
  }

  /** The pinned string consists of digits and dots only. */
  lemma {:induction false} JoinDotAlphabet(parts: seq<string>)
    requires forall i :: 0 <= i < |parts| ==> AllDigits(parts[i])
    ensures forall k :: 0 <= k < |JoinDot(parts)| ==>
              IsDigit(JoinDot(parts)[k]) || JoinDot(parts)[k] == '.'
    decreases |parts|
  {
    if |parts| > 1 {
      JoinDotAlphabet(parts[1..]);
    }
  }
}
