/** The string operations of Go's strings package that the model needs, on separators of one character. */
module Text {

  /** strings.Split. */
  function Split(s: string, sep: char): (parts: seq<string>)
    ensures |parts| > 0
    ensures forall i :: 0 <= i < |parts| ==> sep !in parts[i]
  {
    if s == "" then [""]
    else
      var rest := Split(s[1..], sep);
      if s[0] == sep then [""] + rest else [[s[0]] + rest[0]] + rest[1..]
  }

  /** strings.Join. */
  function Join(parts: seq<string>, sep: char): string {
    if parts == [] then ""
    else if |parts| == 1 then parts[0]
    else parts[0] + [sep] + Join(parts[1..], sep)
  }

  lemma {:induction false} JoinUndoesSplit(s: string, sep: char)
    ensures Join(Split(s, sep), sep) == s
  {
    if s != "" {
      JoinUndoesSplit(s[1..], sep);
      var rest := Split(s[1..], sep);
      if s[0] == sep {
        assert Split(s, sep)[1..] == rest;
      } else {
        assert Split(s, sep)[1..] == rest[1..];
      }
    }
  }

  /** A string without the separator is one part. */
  lemma {:induction false} SplitWhole(s: string, sep: char)
    requires sep !in s
    ensures Split(s, sep) == [s]
  {
    if s != "" {
      SplitWhole(s[1..], sep);
      assert [s[0]] + s[1..] == s;
    }
  }

  /** What comes before the first separator is the first part. */
  lemma {:induction false} SplitFirst(head: string, tail: string, sep: char)
    requires sep !in head
    ensures Split(head + [sep] + tail, sep) == [head] + Split(tail, sep)
  {
    var s := head + [sep] + tail;
    if head == "" {
      assert s[1..] == tail;
    } else {
      SplitFirst(head[1..], tail, sep);
      assert s[1..] == head[1..] + [sep] + tail;
      assert [s[0]] + head[1..] == head;
    }
  }

  lemma {:induction false} SplitUndoesJoin(parts: seq<string>, sep: char)
    requires parts != [] && forall i :: 0 <= i < |parts| ==> sep !in parts[i]
    ensures Split(Join(parts, sep), sep) == parts
  {
    if |parts| == 1 {
      SplitWhole(parts[0], sep);
    } else {
      SplitUndoesJoin(parts[1..], sep);
      SplitFirst(parts[0], Join(parts[1..], sep), sep);
    }
  }

  function TrimLeft(s: string, c: char): string {
    if s != "" && s[0] == c then TrimLeft(s[1..], c) else s
  }

  function TrimRight(s: string, c: char): string {
    if s != "" && s[|s| - 1] == c then TrimRight(s[..|s| - 1], c) else s
  }

  /** strings.Trim(s, " "). */
  function Trim(s: string): string {
    TrimRight(TrimLeft(s, ' '), ' ')
  }

  predicate NoOuterBlanks(s: string) {
    s != "" ==> s[0] != ' ' && s[|s| - 1] != ' '
  }

  lemma TrimKeeps(s: string)
    requires NoOuterBlanks(s)
    ensures Trim(s) == s
  {
  }

  lemma {:induction false} TrimRightEnds(s: string)
    ensures var t := TrimRight(s, ' ');
            t <= s && (t != "" ==> t[|t| - 1] != ' ')
  {
    if s != "" && s[|s| - 1] == ' ' { TrimRightEnds(s[..|s| - 1]); }
  }

  lemma {:induction false} TrimLeftStarts(s: string)
    ensures var t := TrimLeft(s, ' '); t != "" ==> t[0] != ' '
  {
    if s != "" && s[0] == ' ' { TrimLeftStarts(s[1..]); }
  }

  lemma TrimTwice(s: string)
    ensures NoOuterBlanks(Trim(s)) && Trim(Trim(s)) == Trim(s)
  {
    TrimLeftStarts(s);
    TrimRightEnds(TrimLeft(s, ' '));
    TrimKeeps(Trim(s));
  }

  /** strings.Contains. */
  predicate Contains(s: string, sub: string) {
    sub <= s || (s != "" && Contains(s[1..], sub))
  }

  /** The substring begins at some place. */
  lemma {:induction false} ContainsIff(s: string, sub: string)
    ensures Contains(s, sub) <==> exists i :: 0 <= i <= |s| && sub <= s[i..]
  {
    if s != "" { ContainsIff(s[1..], sub); }
    if i :| 0 <= i <= |s| && sub <= s[i..] {
      if i > 0 { assert s[1..][i - 1..] == s[i..]; } else { assert s[0..] == s; }
    }
    if Contains(s, sub) {
      if sub <= s {
        assert s[0..] == s;
      } else {
        var i :| 0 <= i <= |s[1..]| && sub <= s[1..][i..];
        assert s[1..][i..] == s[i + 1..];
      }
    }
  }

  lemma {:induction false} ContainsAfter(a: string, s: string, sub: string)
    requires Contains(s, sub)
    ensures Contains(a + s, sub)
  {
    if a == "" {
      assert a + s == s;
    } else {
      ContainsAfter(a[1..], s, sub);
      assert (a + s)[1..] == a[1..] + s;
    }
  }

  /** A blank at the end is not part of an arrow. */
  lemma {:induction false} ArrowBeforeBlank(s: string)
    requires s != "" && s[|s| - 1] == ' ' && Contains(s, "->")
    ensures Contains(s[..|s| - 1], "->")
  {
    if "->" <= s {
      assert "->" <= s[..|s| - 1];
    } else {
      ArrowBeforeBlank(s[1..]);
      assert s[..|s| - 1][1..] == s[1..][..|s| - 2];
    }
  }

  lemma {:induction false} TrimRightKeepsArrow(s: string)
    requires Contains(s, "->")
    ensures Contains(TrimRight(s, ' '), "->")
  {
    if s != "" && s[|s| - 1] == ' ' {
      ArrowBeforeBlank(s);
      TrimRightKeepsArrow(s[..|s| - 1]);
    }
  }

  lemma {:induction false} TrimKeepsArrow(s: string)
    requires Contains(s, "->")
    ensures Contains(Trim(s), "->")
  {
    if s != "" && s[0] == ' ' { TrimKeepsArrow(s[1..]); } else { TrimRightKeepsArrow(s); }
  }

  /** Trimming a qualified name touches only its tail. */
  lemma {:induction false} TrimTail(head: string, tail: string)
    requires head != "" && head[|head| - 1] != ' '
    ensures TrimRight(head + tail, ' ') == head + TrimRight(tail, ' ')
  {
    var s := head + tail;
    if tail == "" {
      assert s == head;
    } else if tail[|tail| - 1] == ' ' {
      TrimTail(head, tail[..|tail| - 1]);
      assert s[..|s| - 1] == head + tail[..|tail| - 1];
    }
  }

  lemma {:induction false} TrimHasNoNew(s: string, c: char)
    requires c !in s
    ensures c !in Trim(s)
  {
    if s != "" && s[0] == ' ' { TrimHasNoNew(s[1..], c); } else { TrimRightEnds(s); }
  }

  /** Trimming removes blanks only. */
  lemma {:induction false} TrimRightKeeps(s: string, c: char)
    requires c in s && c != ' '
    ensures c in TrimRight(s, ' ')
  {
    if s[|s| - 1] == ' ' {
      assert s == s[..|s| - 1] + [s[|s| - 1]];
      TrimRightKeeps(s[..|s| - 1], c);
    }
  }

  // ---------- decimal numbers ----------

  predicate IsDigit(c: char) { '0' <= c <= '9' }

  predicate AllDigits(s: string) {
    forall i :: 0 <= i < |s| ==> IsDigit(s[i])
  }

  function DecimalValue(digits: string): nat
    requires AllDigits(digits)
  {
    if digits == "" then 0
    else
      var last := digits[|digits| - 1];
      assert IsDigit(last);
      10 * DecimalValue(digits[..|digits| - 1]) + (last as int - '0' as int)
  }

  lemma OneMoreDigit(digits: string, c: char)
    requires AllDigits(digits) && IsDigit(c)
    ensures AllDigits(digits + [c]) && DecimalValue(digits + [c]) == 10 * DecimalValue(digits) + (c as int - '0' as int)
  {
    assert (digits + [c])[..|digits|] == digits;
  }

  /** Zeros in front do not count. */
  lemma {:induction false} LeadingZero(digits: string)
    requires AllDigits(digits)
    ensures AllDigits("0" + digits) && DecimalValue("0" + digits) == DecimalValue(digits)
  {
    if digits == "" {
      assert "0" + digits == "0" && "0"[..0] == "";
    } else {
      var n := |digits| - 1;
      LeadingZero(digits[..n]);
      assert ("0" + digits)[..n + 1] == "0" + digits[..n];
    }
  }
}
