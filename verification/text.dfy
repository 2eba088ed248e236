/** ASCII character classes and the few string operations the handlers rely on. */
module Text {

  predicate IsDigit(c: char) { '0' <= c <= '9' }
  predicate IsLower(c: char) { 'a' <= c <= 'z' }
  predicate IsUpper(c: char) { 'A' <= c <= 'Z' }

  /** `String.prototype.toLowerCase` restricted to ASCII letters. */
  function LowerChar(c: char): (d: char)
    ensures !IsUpper(d)
    ensures IsUpper(c) ==> IsLower(d) && d as int == c as int + 32
    ensures !IsUpper(c) ==> d == c
  {
    if IsUpper(c) then (c as int + 32) as char else c
  }

  /** `String.prototype.toUpperCase` restricted to ASCII letters. */
  function UpperChar(c: char): (d: char)
    ensures !IsLower(d)
    ensures IsLower(c) ==> IsUpper(d) && d as int + 32 == c as int
    ensures !IsLower(c) ==> d == c
  {
    if IsLower(c) then (c as int - 32) as char else c
  }

  function ToLower(s: string): (r: string)
    ensures |r| == |s|
    ensures forall i :: 0 <= i < |s| ==> r[i] == LowerChar(s[i])
  {
    seq(|s|, i requires 0 <= i < |s| => LowerChar(s[i]))
  }

  function ToUpper(s: string): (r: string)
    ensures |r| == |s|
    ensures forall i :: 0 <= i < |s| ==> r[i] == UpperChar(s[i])
  {
    seq(|s|, i requires 0 <= i < |s| => UpperChar(s[i]))
  }

  /**
   * The characters `String.prototype.trim` removes: the white space and line
   * terminators of the ECMAScript grammar (tab, line tabulation, form feed,
   * space, no-break space, the byte-order mark, the other space separators,
   * and line feed, carriage return and the two Unicode line separators).
   */
  predicate IsJsSpace(c: char) {
    || c == '\t' || c == '\n' || c == '\U{000B}' || c == '\U{000C}' || c == '\r' || c == ' '
    || c == '\U{00A0}' || c == '\U{1680}' || ('\U{2000}' <= c <= '\U{200A}')
    || c == '\U{2028}' || c == '\U{2029}' || c == '\U{202F}' || c == '\U{205F}'
    || c == '\U{3000}' || c == '\U{FEFF}'
  }

  /** The string without its leading white space: a suffix of `s`, all of whose dropped characters are white space. */
  function TrimStart(s: string): (r: string)
    ensures |r| <= |s| && r == s[|s| - |r|..]
    ensures forall i :: 0 <= i < |s| - |r| ==> IsJsSpace(s[i])
    ensures |r| > 0 ==> !IsJsSpace(r[0])
  {
    if |s| > 0 && IsJsSpace(s[0]) then TrimStart(s[1..]) else s
  }

  /** The string without its trailing white space: a prefix of `s`, all of whose dropped characters are white space. */
  function TrimEnd(s: string): (r: string)
    ensures |r| <= |s| && r == s[..|r|]
    ensures forall i :: |r| <= i < |s| ==> IsJsSpace(s[i])
    ensures |r| > 0 ==> !IsJsSpace(r[|r| - 1])
  {
    if |s| > 0 && IsJsSpace(s[|s| - 1]) then TrimEnd(s[..|s| - 1]) else s
  }

  /** `String.prototype.trim`. */
  function Trim(s: string): (r: string)
    ensures |r| <= |s|
    ensures |r| > 0 ==> !IsJsSpace(r[0]) && !IsJsSpace(r[|r| - 1])
  {
    TrimEnd(TrimStart(s))
  }

  /** A string that neither starts nor ends with white space is its own trim. */
  lemma TrimKeepsUnpadded(s: string)
    requires |s| > 0 ==> !IsJsSpace(s[0]) && !IsJsSpace(s[|s| - 1])
    ensures Trim(s) == s
  {
    assert TrimStart(s) == s;
  }

  /** Lower-casing neither creates nor removes white space. */
  lemma LowerCharKeepsSpace(c: char)
    ensures IsJsSpace(LowerChar(c)) <==> IsJsSpace(c)
  {
    if IsUpper(c) {
      assert IsLower(LowerChar(c));
    }
  }

  /** Lower-casing keeps a string without upper-case letters. */
  lemma LowerKeepsNoUpper(s: string)
    requires forall i :: 0 <= i < |s| ==> !IsUpper(s[i])
    ensures ToLower(s) == s
  {
  }

  predicate StartsWith(s: string, prefix: string) {
    |prefix| <= |s| && s[..|prefix|] == prefix
  }

  /** `fields.join(sep)`. */
  function Join(fields: seq<string>, sep: char): string
    requires |fields| >= 1
  {
    if |fields| == 1 then fields[0] else fields[0] + [sep] + Join(fields[1..], sep)
  }

  /** `s.split(sep)` for a one-character separator: empty fields are kept, so the result is never empty. */
  function Split(s: string, sep: char): (fields: seq<string>)
    ensures |fields| >= 1
    ensures forall i :: 0 <= i < |fields| ==> sep !in fields[i]
  {
    if |s| == 0 then [""]
    else
      var rest := Split(s[1..], sep);
      if s[0] == sep then [""] + rest else [[s[0]] + rest[0]] + rest[1..]
  }

  /** Joining the fields of a split gives back the string. */
  lemma {:induction false} JoinSplit(s: string, sep: char)
    ensures Join(Split(s, sep), sep) == s
  {
    if |s| > 0 {
      var rest := Split(s[1..], sep);
      JoinSplit(s[1..], sep);
      if s[0] != sep {
        if |rest| > 1 {
          assert rest == [rest[0]] + rest[1..];
        }
      }
    }
  }

  /** Splitting a join of separator-free fields gives back the fields. */
  lemma {:induction false} SplitJoin(fields: seq<string>, sep: char)
    requires |fields| >= 1
    requires forall i :: 0 <= i < |fields| ==> sep !in fields[i]
    ensures Split(Join(fields, sep), sep) == fields
    decreases |fields|, |fields[0]|
  {
    if |fields[0]| == 0 {
      if |fields| > 1 {
        SplitJoin(fields[1..], sep);
        SplitJoinEmptyHead(fields, sep);
      }
    } else {
      var f := fields[0];
      var tail := [f[1..]] + fields[1..];
      forall i | 0 <= i < |tail| ensures sep !in tail[i] {
        if i == 0 { assert forall c :: c in f[1..] ==> c in f; } else { assert tail[i] == fields[i]; }
      }
      SplitJoin(tail, sep);
      SplitJoinLetterHead(fields, tail, sep);
    }
  }

  lemma SplitJoinEmptyHead(fields: seq<string>, sep: char)
    requires |fields| > 1 && fields[0] == ""
    requires Split(Join(fields[1..], sep), sep) == fields[1..]
    ensures Split(Join(fields, sep), sep) == fields
  {
    var j := Join(fields, sep);
    assert j == [sep] + Join(fields[1..], sep);
    assert j[1..] == Join(fields[1..], sep);
  }

  lemma SplitJoinLetterHead(fields: seq<string>, tail: seq<string>, sep: char)
    requires |fields| >= 1 && |fields[0]| > 0 && fields[0][0] != sep
    requires tail == [fields[0][1..]] + fields[1..]
    requires Split(Join(tail, sep), sep) == tail
    ensures Split(Join(fields, sep), sep) == fields
  {
    var f := fields[0];
    var j := Join(fields, sep);
    if |fields| == 1 {
      assert j == f;
      assert Join(tail, sep) == f[1..];
    } else {
      assert tail[1..] == fields[1..];
      assert Join(tail, sep) == f[1..] + [sep] + Join(fields[1..], sep);
      assert j == f + [sep] + Join(fields[1..], sep);
    }
    assert j[1..] == Join(tail, sep);
    assert Split(j, sep) == [[f[0]] + tail[0]] + tail[1..];
    assert [f[0]] + f[1..] == f;
    assert fields == [f] + fields[1..];
  }
}
