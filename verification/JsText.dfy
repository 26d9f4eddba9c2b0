/** `String.prototype.trim`, on which blank-alias checks and Range parsing both rest. */
module JsText {

  /** WhiteSpace and LineTerminator of ECMA-262, sections 12.2 and 12.3. */
  predicate IsWhitespace(c: char) {
    var u := c as int;
    || 0x9 <= u <= 0xD || u == 0x20 || u == 0xA0 || u == 0x1680 || 0x2000 <= u <= 0x200A
    || u == 0x2028 || u == 0x2029 || u == 0x202F || u == 0x205F || u == 0x3000 || u == 0xFEFF
  }

  predicate AllWhitespace(s: string) {
    forall i :: 0 <= i < |s| ==> IsWhitespace(s[i])
  }

  function TrimStart(s: string): string {
    if s != "" && IsWhitespace(s[0]) then TrimStart(s[1..]) else s
  }

  function TrimEnd(s: string): string {
    if s != "" && IsWhitespace(s[|s| - 1]) then TrimEnd(s[..|s| - 1]) else s
  }

  function Trim(s: string): string {
    TrimEnd(TrimStart(s))
  }

  /** Nothing left to trim at either end. */
  predicate Trimmed(s: string) {
    s != "" ==> !IsWhitespace(s[0]) && !IsWhitespace(s[|s| - 1])
  }

  lemma {:induction false} TrimStartSplits(s: string) returns (left: string)
    ensures AllWhitespace(left) && s == left + TrimStart(s)
    ensures TrimStart(s) != "" ==> !IsWhitespace(TrimStart(s)[0])
  {
    if s != "" && IsWhitespace(s[0]) {
      var rest := TrimStartSplits(s[1..]);
      left := [s[0]] + rest;
      assert s == [s[0]] + s[1..] == [s[0]] + (rest + TrimStart(s[1..]));
      assert [s[0]] + (rest + TrimStart(s[1..])) == left + TrimStart(s[1..]);
    } else {
      left := "";
    }
  }

  lemma {:induction false} TrimEndSplits(s: string) returns (right: string)
    ensures AllWhitespace(right) && s == TrimEnd(s) + right
    ensures TrimEnd(s) != "" ==> !IsWhitespace(TrimEnd(s)[|TrimEnd(s)| - 1])
  {
    if s != "" && IsWhitespace(s[|s| - 1]) {
      var rest := TrimEndSplits(s[..|s| - 1]);
      right := rest + [s[|s| - 1]];
      assert s == s[..|s| - 1] + [s[|s| - 1]] == (TrimEnd(s[..|s| - 1]) + rest) + [s[|s| - 1]];
      assert (TrimEnd(s[..|s| - 1]) + rest) + [s[|s| - 1]] == TrimEnd(s[..|s| - 1]) + right;
    } else {
      right := "";
    }
  }

  /** Trimming removes whitespace at both ends, and nothing else. */
  lemma TrimSplits(s: string) returns (left: string, right: string)
    ensures AllWhitespace(left) && AllWhitespace(right)
    ensures s == left + Trim(s) + right && Trimmed(Trim(s))
  {
    left := TrimStartSplits(s);
    right := TrimEndSplits(TrimStart(s));
    assert s == left + (Trim(s) + right);
    if Trim(s) != "" { assert Trim(s)[0] == TrimStart(s)[0]; }
  }

  lemma {:induction false} TrimStartOfWhitespace(s: string)
    requires AllWhitespace(s)
    ensures TrimStart(s) == ""
  {
    if s != "" { TrimStartOfWhitespace(s[1..]); }
  }

  /** A string is blank exactly when it holds nothing but whitespace. */
  lemma BlankIff(s: string)
    ensures Trim(s) == "" <==> AllWhitespace(s)
  {
    if Trim(s) == "" {
      var left, right := TrimSplits(s);
      assert s == left + right;
    }
    if AllWhitespace(s) {
      TrimStartOfWhitespace(s);
    }
  }

  /** The 25 code units that are trimmed, one by one. */
  lemma WhitespaceIs(c: char)
    ensures IsWhitespace(c) <==>
              c as int in {0x9, 0xA, 0xB, 0xC, 0xD, 0x20, 0xA0, 0x1680, 0x2000, 0x2001, 0x2002, 0x2003, 0x2004, 0x2005,
                           0x2006, 0x2007, 0x2008, 0x2009, 0x200A, 0x2028, 0x2029, 0x202F, 0x205F, 0x3000, 0xFEFF}
  {
  }

  /** A string without whitespace at its ends is left alone. */
  lemma TrimOfTrimmed(s: string)
    requires Trimmed(s)
    ensures Trim(s) == s
  {
  }

  lemma {:induction false} TrimStartDrops(left: string, rest: string)
    requires AllWhitespace(left) && (rest != "" ==> !IsWhitespace(rest[0]))
    ensures TrimStart(left + rest) == rest
  {
    if left == "" {
      assert left + rest == rest;
    } else {
      TrimStartDrops(left[1..], rest);
      assert (left + rest)[1..] == left[1..] + rest;
    }
  }

  lemma {:induction false} TrimEndDrops(rest: string, right: string)
    requires AllWhitespace(right) && (rest != "" ==> !IsWhitespace(rest[|rest| - 1]))
    ensures TrimEnd(rest + right) == rest
  {
    if right == "" {
      assert rest + right == rest;
    } else {
      var n := |right| - 1;
      TrimEndDrops(rest, right[..n]);
      assert (rest + right)[..|rest + right| - 1] == rest + right[..n];
    }
  }

  /** `s` is `text` between whitespace. */
  ghost predicate Pads(s: string, text: string) {
    exists left, right :: AllWhitespace(left) && AllWhitespace(right) && s == left + text + right
  }

  /** Trimming gives the one text without whitespace at its ends that `s` pads. */
  lemma TrimIff(s: string, text: string)
    ensures Trim(s) == text <==> Trimmed(text) && Pads(s, text)
  {
    if Trim(s) == text {
      var left, right := TrimSplits(s);
    }
    if Trimmed(text) && Pads(s, text) {
      var left, right :| AllWhitespace(left) && AllWhitespace(right) && s == left + text + right;
      if text == "" {
        BlankIff(s);
      } else {
        assert s == left + (text + right) && (text + right)[0] == text[0];
        TrimStartDrops(left, text + right);
        TrimEndDrops(text, right);
      }
    }
  }
}
