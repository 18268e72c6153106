/** The generator's name conversions, on ASCII names. */
module Naming {
  import Text

  predicate IsSeparator(c: char) { c == '_' || c == '-' }
  predicate IsUpper(c: char) { 'A' <= c <= 'Z' }
  predicate IsLower(c: char) { 'a' <= c <= 'z' }

  function Upper(c: char): char {
    if IsLower(c) then c - 'a' + 'A' else c
  }

  function Lower(c: char): char {
    if IsUpper(c) then c - 'A' + 'a' else c
  }

  const CAPITALS := "ABCDEFGHIJKLMNOPQRSTUVWXYZ"
  const SMALLS := "abcdefghijklmnopqrstuvwxyz"

  /** The letters at one place of the two alphabets are each other's case; other characters have none. */
  lemma LettersInTurn()
    ensures |CAPITALS| == |SMALLS| == 26
    ensures forall i :: 0 <= i < 26 ==> Upper(SMALLS[i]) == CAPITALS[i] && Lower(CAPITALS[i]) == SMALLS[i]
    ensures forall c :: Upper(c) != c ==> c in SMALLS
    ensures forall c :: Lower(c) != c ==> c in CAPITALS
  {
    forall i | 0 <= i < 26 ensures SMALLS[i] == 'a' + i as char && CAPITALS[i] == 'A' + i as char {
    }
    forall c | Upper(c) != c ensures c in SMALLS {
      assert c == SMALLS[c as int - 'a' as int];
    }
    forall c | Lower(c) != c ensures c in CAPITALS {
      assert c == CAPITALS[c as int - 'A' as int];
    }
  }

  /** strings.ToLower. */
  function ToLower(s: string): (t: string)
    ensures |t| == |s| && forall i :: 0 <= i < |s| ==> t[i] == Lower(s[i])
  {
    if s == "" then "" else [Lower(s[0])] + ToLower(s[1..])
  }

  // ---------- toSnakeCase ----------

  /** The snake form of what follows the first character. */
  function SnakeTail(s: string): string {
    if s == "" then ""
    else (if IsUpper(s[0]) then ['_', Lower(s[0])] else [s[0]]) + SnakeTail(s[1..])
  }

  function Snake(s: string): string {
    if s == "" then "" else [Lower(s[0])] + SnakeTail(s[1..])
  }

  /** The string that is built before it is lowered. */
  function Separated(s: string, i: nat): string
    requires i <= |s|
  {
    if i == 0 then ""
    else Separated(s, i - 1) + (if i > 1 && IsUpper(s[i - 1]) then ['_', s[i - 1]] else [s[i - 1]])
  }

  lemma {:induction false} ToLowerBoth(a: string, b: string)
    ensures ToLower(a + b) == ToLower(a) + ToLower(b)
  {
  }

  lemma {:induction false} SnakeTailMore(s: string, c: char)
    ensures SnakeTail(s + [c]) == SnakeTail(s) + (if IsUpper(c) then ['_', Lower(c)] else [c])
  {
    if s == "" {
      assert s + [c] == [c];
    } else {
      SnakeTailMore(s[1..], c);
      assert (s + [c])[1..] == s[1..] + [c];
    }
  }

  lemma {:induction false} SeparatedIsSnake(s: string, i: nat)
    requires i <= |s|
    ensures ToLower(Separated(s, i)) == Snake(s[..i])
  {
    if i == 1 {
      assert Separated(s, 1) == [s[0]] && s[..1] == [s[0]];
    } else if i > 1 {
      SeparatedIsSnake(s, i - 1);
      var c := s[i - 1];
      var step := if IsUpper(c) then ['_', c] else [c];
      ToLowerBoth(Separated(s, i - 1), step);
      SnakeTailMore(s[..i - 1][1..], c);
      assert s[..i][1..] == s[..i - 1][1..] + [c];
      assert ToLower(step) == if IsUpper(c) then ['_', Lower(c)] else [c];
    }
  }

  method ToSnakeCase(s: string) returns (snake: string)
    ensures snake == Snake(s)
  {
    var result := "";
    for i := 0 to |s|
      invariant result == Separated(s, i)
    {
      if i > 0 && IsUpper(s[i]) {
        result := result + "_";
      }
      result := result + [s[i]];
      assert result == Separated(s, i + 1);
    }
    SeparatedIsSnake(s, |s|);
    assert s[..|s|] == s;
    return ToLower(result);
  }

  // ---------- toPascalCase ----------

  /** The name without its separators; a character at a start is capital. */
  function PascalFrom(s: string, start: bool): string {
    if s == "" then ""
    else if IsSeparator(s[0]) then PascalFrom(s[1..], true)
    else [if start then Upper(s[0]) else s[0]] + PascalFrom(s[1..], false)
  }

  function Pascal(s: string): string {
    PascalFrom(s, true)
  }

  /** The length of the word that the string begins with. */
  function WordLength(s: string): (n: nat)
    ensures n <= |s| && (n < |s| ==> IsSeparator(s[n]))
    ensures forall i :: 0 <= i < n ==> !IsSeparator(s[i])
  {
    if s == "" || IsSeparator(s[0]) then 0 else 1 + WordLength(s[1..])
  }

  /** strings.FieldsFunc: the words between separators, none of them empty. */
  function FieldsFunc(s: string): (parts: seq<string>)
    ensures forall i :: 0 <= i < |parts| ==> parts[i] != ""
    decreases |s|
  {
    if s == "" then []
    else if IsSeparator(s[0]) then FieldsFunc(s[1..])
    else [s[..WordLength(s)]] + FieldsFunc(s[WordLength(s)..])
  }

  function Capital(part: string): string
    requires part != ""
  {
    [Upper(part[0])] + part[1..]
  }

  function Capitals(parts: seq<string>): string
    requires forall i :: 0 <= i < |parts| ==> parts[i] != ""
  {
    if parts == [] then "" else Capital(parts[0]) + Capitals(parts[1..])
  }

  lemma {:induction false} PascalOfWord(s: string)
    ensures PascalFrom(s, false) == s[..WordLength(s)] + PascalFrom(s[WordLength(s)..], false)
  {
    if s != "" && !IsSeparator(s[0]) {
      PascalOfWord(s[1..]);
      assert s[..WordLength(s)] == [s[0]] + s[1..][..WordLength(s[1..])];
      assert s[WordLength(s)..] == s[1..][WordLength(s[1..])..];
    } else {
      assert s[..0] == "" && s[0..] == s;
    }
  }

  /** The words with capital first letters, joined, are the Pascal form. */
  lemma {:induction false} CapitalsArePascal(s: string)
    ensures Capitals(FieldsFunc(s)) == Pascal(s)
    decreases |s|
  {
    if s != "" {
      if IsSeparator(s[0]) {
        CapitalsArePascal(s[1..]);
      } else {
        var n := WordLength(s);
        var word, rest := s[..n], s[n..];
        CapitalsArePascal(rest);
        PascalOfWord(s[1..]);
        assert s[1..][..n - 1] == word[1..] && s[1..][n - 1..] == rest;
        assert FieldsFunc(s)[1..] == FieldsFunc(rest);
        assert PascalFrom(rest, false) == Pascal(rest);
      }
    }
  }

  /** strings.Join with an empty separator. */
  function Concat(parts: seq<string>): string {
    if parts == [] then "" else parts[0] + Concat(parts[1..])
  }

  lemma {:induction false} ConcatCapitals(words: seq<string>, parts: seq<string>)
    requires |parts| == |words|
    requires forall i :: 0 <= i < |words| ==> words[i] != "" && parts[i] == Capital(words[i])
    ensures Concat(parts) == Capitals(words)
  {
    if words != [] { ConcatCapitals(words[1..], parts[1..]); }
  }

  method ToPascalCase(s: string) returns (pascal: string)
    ensures pascal == Pascal(s)
  {
    if |s| == 0 {
      return s;
    }
    var words := FieldsFunc(s);
    var parts := words;
    for i := 0 to |words|
      invariant |parts| == |words|
      invariant forall j :: 0 <= j < i ==> parts[j] == Capital(words[j])
      invariant forall j :: i <= j < |words| ==> parts[j] == words[j]
    {
      if |parts[i]| > 0 {
        parts := parts[i := Capital(parts[i])];
      }
    }
    ConcatCapitals(words, parts);
    CapitalsArePascal(s);
    return Concat(parts);
  }

  method ToCamelCase(s: string) returns (camel: string)
    ensures camel == Camel(s)
  {
    var pascal := ToPascalCase(s);
    if |pascal| == 0 {
      return pascal;
    }
    return [Lower(pascal[0])] + pascal[1..];
  }

  function Camel(s: string): string {
    var pascal := Pascal(s);
    if pascal == "" then "" else [Lower(pascal[0])] + pascal[1..]
  }

  // ---------- round trips ----------

  predicate NoSeparators(s: string) {
    forall i :: 0 <= i < |s| ==> !IsSeparator(s[i])
  }

  /** A Pascal form has no separators and does not begin with a lower-case letter. */
  lemma {:induction false} PascalHasForm(s: string, start: bool)
    ensures var p := PascalFrom(s, start);
            NoSeparators(p) && (start && p != "" ==> !IsLower(p[0]))
  {
    if s != "" {
      if IsSeparator(s[0]) {
        PascalHasForm(s[1..], true);
      } else {
        PascalHasForm(s[1..], false);
        var p, rest := PascalFrom(s, start), PascalFrom(s[1..], false);
        assert IsLower(s[0]) ==> IsUpper(Upper(s[0]));
        assert !IsSeparator(p[0]) && p == [p[0]] + rest;
        OneMoreCharacter(p[0], rest);
      }
    }
  }

  lemma OneMoreCharacter(c: char, rest: string)
    requires !IsSeparator(c) && NoSeparators(rest)
    ensures NoSeparators([c] + rest)
  {
  }

  /** How the conversion goes on after an underscore and a letter, and after any other character. */
  lemma PascalSteps(c: char, rest: string)
    requires !IsSeparator(c)
    ensures PascalFrom(['_', c] + rest, false) == [Upper(c)] + PascalFrom(rest, false)
    ensures PascalFrom([c] + rest, false) == [c] + PascalFrom(rest, false)
  {
    assert (['_', c] + rest)[1..] == [c] + rest && ([c] + rest)[1..] == rest;
  }

  lemma {:induction false} PascalUndoesSnakeTail(s: string)
    requires NoSeparators(s)
    ensures PascalFrom(SnakeTail(s), false) == s
  {
    if s != "" {
      var c, rest := s[0], s[1..];
      PascalUndoesSnakeTail(rest);
      assert s == [c] + rest;
      if IsUpper(c) { PascalSteps(Lower(c), SnakeTail(rest)); } else { PascalSteps(c, SnakeTail(rest)); }
    }
  }

  /** The Pascal form of the snake form of a Pascal form is that form. */
  lemma PascalUndoesSnake(s: string)
    ensures Pascal(Snake(Pascal(s))) == Pascal(s)
  {
    var p := Pascal(s);
    PascalHasForm(s, true);
    if p != "" {
      PascalUndoesSnakeTail(p[1..]);
      assert Snake(p)[1..] == SnakeTail(p[1..]);
    }
  }

  lemma {:induction false} PascalKeepsForm(s: string)
    requires NoSeparators(s)
    ensures PascalFrom(s, false) == s
  {
    if s != "" { PascalKeepsForm(s[1..]); }
  }

  lemma PascalTwice(s: string)
    ensures Pascal(Pascal(s)) == Pascal(s)
  {
    PascalHasForm(s, true);
    if Pascal(s) != "" { PascalKeepsForm(Pascal(s)[1..]); }
  }

  lemma PascalUndoesCamel(s: string)
    ensures Pascal(Camel(Pascal(s))) == Pascal(s)
  {
    var p := Pascal(s);
    PascalTwice(s);
    PascalHasForm(s, true);
    if p != "" {
      PascalKeepsForm(p[1..]);
      assert Camel(p)[1..] == p[1..];
    }
  }

  /** What mapFieldType derives from a field's name: the Go name, the column and JSON name, and the parameter name. */
  datatype FieldNames = FieldNames(goName: string, snakeName: string, camelName: string)

  function NamesOf(name: string): FieldNames {
    FieldNames(Pascal(name), Snake(Pascal(name)), Camel(Pascal(name)))
  }

  /**
   * The names that mapFieldType fills in; the snake and the camel name are made from the Go name, which
   * comes back from either of them.
   */
  method MapFieldNames(name: string) returns (names: FieldNames)
    ensures names == NamesOf(name)
    ensures Pascal(names.snakeName) == names.goName && Pascal(names.camelName) == names.goName
  {
    PascalUndoesSnake(name);
    PascalUndoesCamel(name);
    var goName := ToPascalCase(name);
    var snakeName := ToSnakeCase(goName);
    var camelName := ToCamelCase(goName);
    return FieldNames(goName, snakeName, camelName);
  }

  /** Fields with different Go names have different column and JSON names, and different camel names. */
  lemma DistinctGoNames(a: string, b: string)
    requires NamesOf(a).goName != NamesOf(b).goName
    ensures NamesOf(a).snakeName != NamesOf(b).snakeName
    ensures NamesOf(a).camelName != NamesOf(b).camelName
  {
    PascalUndoesSnake(a);
    PascalUndoesSnake(b);
    PascalUndoesCamel(a);
    PascalUndoesCamel(b);
  }

  /** A camel name differs from the Pascal name in the case of its first letter only. */
  lemma CamelIsSmall(s: string)
    ensures Camel(s) != "" ==> !IsUpper(Camel(s)[0])
    ensures |Camel(s)| == |Pascal(s)| && forall i :: 0 < i < |Pascal(s)| ==> Camel(s)[i] == Pascal(s)[i]
  {
    PascalHasForm(s, true);
  }

  /** An instance with both separators. */
  lemma NamesOfInstance()
    ensures NamesOf("my-f_2") == FieldNames("MyF2", "my_f2", "myF2")
  {
    PascalOfInstance("y-f_2");
    assert "my-f_2"[1..] == "y-f_2" && Pascal("my-f_2") == "M" + "yF2";
    SnakeOfInstance("yF2");
  }

  lemma PascalOfInstance(tail: string)
    requires tail == "y-f_2"
    ensures PascalFrom(tail, false) == "yF2"
  {
    var s2, s3, s4 := "-f_2", "f_2", "_2";
    assert s4[1..] == "2" && PascalFrom("2", true) == "2" && PascalFrom(s4, false) == "2";
    assert s3[1..] == s4 && PascalFrom(s3, true) == "F" + "2";
    assert s2[1..] == s3 && PascalFrom(s2, false) == "F2";
    assert tail[1..] == s2 && PascalFrom(tail, false) == "y" + "F2";
  }

  lemma SnakeOfInstance(tail: string)
    requires tail == "yF2"
    ensures SnakeTail(tail) == "y_f2"
  {
    var s1, s2 := "F2", "2";
    assert s2[1..] == "" && SnakeTail(s2) == "2";
    assert s1[1..] == s2 && SnakeTail(s1) == "_f" + "2";
    assert tail[1..] == s1;
  }

  // ---------- the names that survive ----------

  /** After the first character: no capitals, no dashes, and an underscore only before a lower-case letter. */
  predicate SnakeFormTail(s: string) {
    s == "" ||
    (if s[0] == '_' then |s| > 1 && IsLower(s[1]) && SnakeFormTail(s[2..])
     else !IsSeparator(s[0]) && !IsUpper(s[0]) && SnakeFormTail(s[1..]))
  }

  predicate SnakeForm(s: string) {
    s == "" || (!IsSeparator(s[0]) && !IsUpper(s[0]) && SnakeFormTail(s[1..]))
  }

  lemma {:induction false} SnakeTailHasForm(s: string)
    requires NoSeparators(s)
    ensures SnakeFormTail(SnakeTail(s))
  {
    if s != "" {
      SnakeTailHasForm(s[1..]);
      var t, rest := SnakeTail(s), SnakeTail(s[1..]);
      if IsUpper(s[0]) { assert t[2..] == rest; } else { assert t[1..] == rest; }
    }
  }

  lemma {:induction false} SnakeUndoesPascalTail(s: string)
    requires SnakeFormTail(s)
    ensures SnakeTail(PascalFrom(s, false)) == s
    decreases |s|
  {
    if s != "" {
      if s[0] == '_' {
        SnakeUndoesPascalTail(s[2..]);
        var rest := PascalFrom(s[2..], false);
        assert s[1..][1..] == s[2..];
        assert PascalFrom(s, false) == [Upper(s[1])] + rest;
        assert ([Upper(s[1])] + rest)[1..] == rest;
        assert s == ['_', s[1]] + s[2..];
      } else {
        SnakeUndoesPascalTail(s[1..]);
        assert PascalFrom(s, false)[1..] == PascalFrom(s[1..], false);
      }
    }
  }

  /** Exactly the names in snake form come back from their Pascal form. */
  lemma SnakeUndoesPascal(s: string)
    ensures Snake(Pascal(s)) == s <==> SnakeForm(s)
  {
    var p := Pascal(s);
    PascalHasForm(s, true);
    if p != "" {
      SnakeTailHasForm(p[1..]);
      assert Snake(p)[1..] == SnakeTail(p[1..]);
    }
    if SnakeForm(s) && s != "" {
      SnakeUndoesPascalTail(s[1..]);
      assert p == [Upper(s[0])] + PascalFrom(s[1..], false);
      assert p[1..] == PascalFrom(s[1..], false);
    }
  }

  predicate Word(w: string) {
    w != "" && IsLower(w[0]) && forall i :: 0 <= i < |w| ==> IsLower(w[i]) || '0' <= w[i] <= '9'
  }

  lemma {:induction false} WordBefore(w: string, rest: string)
    requires forall i :: 0 <= i < |w| ==> IsLower(w[i]) || '0' <= w[i] <= '9'
    requires SnakeFormTail(rest)
    ensures SnakeFormTail(w + rest)
  {
    if w == "" {
      assert w + rest == rest;
    } else {
      WordBefore(w[1..], rest);
      assert (w + rest)[1..] == w[1..] + rest;
    }
  }

  lemma {:induction false} WordsHaveForm(words: seq<string>)
    requires words != [] && forall i :: 0 <= i < |words| ==> Word(words[i])
    ensures var s := Text.Join(words, '_'); s != "" && IsLower(s[0]) && SnakeFormTail(s[1..])
  {
    var w, s := words[0], Text.Join(words, '_');
    if |words| == 1 {
      WordBefore(w[1..], "");
      assert w[1..] + "" == s[1..];
    } else {
      var rest := Text.Join(words[1..], '_');
      WordsHaveForm(words[1..]);
      assert (['_'] + rest)[1] == rest[0] && (['_'] + rest)[2..] == rest[1..];
      WordBefore(w[1..], ['_'] + rest);
      assert s[1..] == w[1..] + (['_'] + rest);
    }
  }

  /** Words of lower-case letters and digits, joined by underscores, come back from their Pascal form. */
  lemma {:induction false} SnakeWordsComeBack(words: seq<string>)
    requires words != [] && forall i :: 0 <= i < |words| ==> Word(words[i])
    ensures Snake(Pascal(Text.Join(words, '_'))) == Text.Join(words, '_')
  {
    WordsHaveForm(words);
    SnakeUndoesPascal(Text.Join(words, '_'));
  }
}
