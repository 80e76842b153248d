/** The string helpers the ledger applies to statuses, descriptions and
    amounts typed by the user.  Case folding is ASCII-only. */
module Text {

  function UpperChar(c: char): char {
    if 'a' <= c <= 'z' then (c as int - 32) as char else c
  }

  function LowerChar(c: char): char {
    if 'A' <= c <= 'Z' then (c as int + 32) as char else c
  }

  /** Python `str.upper()` / JavaScript `toUpperCase()` on ASCII text. */
  function Upper(s: string): (r: string)
    ensures |r| == |s|
  {
    seq(|s|, i requires 0 <= i < |s| => UpperChar(s[i]))
  }

  /** Python `str.lower()` on ASCII text. */
  function Lower(s: string): (r: string)
    ensures |r| == |s|
  {
    seq(|s|, i requires 0 <= i < |s| => LowerChar(s[i]))
  }

  /** The two folds agree on "paid": a status lower-cases to `paid` exactly
      when it upper-cases to `PAID`. */
  lemma PaidFoldsAgree(s: string)
    ensures Lower(s) == "paid" <==> Upper(s) == "PAID"
  {
    if |s| == 4 {
      if Lower(s) == "paid" {
        assert Lower(s)[0] == 'p' && Lower(s)[1] == 'a' && Lower(s)[2] == 'i' && Lower(s)[3] == 'd';
        assert Upper(s) == "PAID";
      }
      if Upper(s) == "PAID" {
        assert Upper(s)[0] == 'P' && Upper(s)[1] == 'A' && Upper(s)[2] == 'I' && Upper(s)[3] == 'D';
        assert Lower(s) == "paid";
      }
    }
  }

  /** Whitespace removed by JavaScript `trim()`: the WhiteSpace and
      LineTerminator characters of ECMA-262, that is tab, vertical tab, form
      feed, space, no-break space, the byte order mark, the other space
      separators of Unicode, line feed, carriage return, and the line and
      paragraph separators. */
  predicate IsSpace(c: char) {
    || c == '\t' || c == '\U{000B}' || c == '\U{000C}' || c == ' '
    || c == '\U{00A0}' || c == '\U{FEFF}' || c == '\U{1680}'
    || ('\U{2000}' <= c <= '\U{200A}')
    || c == '\U{202F}' || c == '\U{205F}' || c == '\U{3000}'
    || c == '\n' || c == '\r' || c == '\U{2028}' || c == '\U{2029}'
  }

  function TrimStart(s: string): (r: string)
    ensures |r| <= |s| && r == s[|s| - |r|..]
    ensures |r| > 0 ==> !IsSpace(r[0])
    ensures forall i :: 0 <= i < |s| - |r| ==> IsSpace(s[i])
  {
    if |s| > 0 && IsSpace(s[0]) then TrimStart(s[1..]) else s
  }

  function TrimEnd(s: string): (r: string)
    ensures |r| <= |s| && r == s[..|r|]
    ensures |r| > 0 ==> !IsSpace(r[|r| - 1])
    ensures forall i :: |r| <= i < |s| ==> IsSpace(s[i])
  {
    if |s| > 0 && IsSpace(s[|s| - 1]) then TrimEnd(s[..|s| - 1]) else s
  }

  /** JavaScript `trim()`. */
  function Trim(s: string): string {
    TrimEnd(TrimStart(s))
  }

  /** The position of the first `c` in `s`, or `|s|` when there is none. */
  function IndexOf(s: string, c: char): (k: nat)
    ensures k <= |s|
    ensures k < |s| ==> s[k] == c
    ensures forall j :: 0 <= j < k ==> s[j] != c
  {
    if |s| == 0 then 0
    else if s[0] == c then 0
    else 1 + IndexOf(s[1..], c)
  }

  predicate Contains(s: string, c: char) {
    exists i :: 0 <= i < |s| && s[i] == c
  }

  /** `s.split(c)[0]`: the text before the first `c`. */
  function FieldZero(s: string, c: char): string {
    s[..IndexOf(s, c)]
  }

  /** `s.split(c)[1]` when `s` contains `c`: the text between the first and
      the second `c` (or the end of `s`). */
  function FieldOne(s: string, c: char): string
    requires Contains(s, c)
  {
    var rest := s[IndexOf(s, c) + 1..];
    rest[..IndexOf(rest, c)]
  }

  lemma FieldsOfJoin(a: string, b: string, tail: string, c: char)
    requires !Contains(a, c) && !Contains(b, c)
    ensures Contains(a + [c] + b + tail, c)
    ensures FieldZero(a + [c] + b + tail, c) == a
    ensures tail == [] || tail[0] == c ==> FieldOne(a + [c] + b + tail, c) == b
  {
    var s := a + [c] + b + tail;
    assert s[|a|] == c;
    assert IndexOf(s, c) == |a|;
    if tail == [] || tail[0] == c {
      var rest := s[|a| + 1..];
      assert rest == b + tail;
      if tail != [] {
        assert rest[|b|] == c;
      }
      assert IndexOf(rest, c) == |b|;
    }
  }
}
