/** The two codecs of the CSV to spreadsheet conversion: column letters and XML escaping. */
module CsvInput {

  // ---------------------------------------------------------------- column letters

  function Letter(d: nat): char
    requires d < 26
  {
    'A' + d as char
  }

  predicate IsLetter(c: char) {
    'A' <= c <= 'Z'
  }

  function Digit(c: char): (d: nat)
    requires IsLetter(c)
    ensures d < 26 && Letter(d) == c
  {
    c as int - 'A' as int
  }

  ghost predicate IsColumn(s: string) {
    s != "" && forall i :: 0 <= i < |s| ==> IsLetter(s[i])
  }

  /** Bijective base 26: A to Z, AA to ZZ, AAA and so on. */
  function Column(n: nat): string {
    if n < 26 then [Letter(n)] else Column(n / 26 - 1) + [Letter(n % 26)]
  }

  method ColLetter(idx: nat) returns (s: string)
    ensures s == Column(idx)
  {
    s := "";
    var n: int := idx;
    while true
      invariant n >= 0 && Column(n) + s == Column(idx)
      decreases n
    {
      var more := n / 26 - 1;
      ghost var rest := s;
      s := [Letter(n % 26)] + s;
      if more < 0 {
        assert Column(n) + rest == s;
        return;
      }
      assert Column(n) + rest == Column(more) + s;
      n := more;
    }
  }

  /** The column number of a name. */
  function Number(s: string): nat
    requires IsColumn(s)
  {
    var last := Digit(s[|s| - 1]);
    if |s| == 1 then last else 26 * (Number(s[..|s| - 1]) + 1) + last
  }

  lemma {:induction false} NumberOfColumn(n: nat)
    ensures IsColumn(Column(n)) && Number(Column(n)) == n
  {
    var s := Column(n);
    if n >= 26 {
      NumberOfColumn(n / 26 - 1);
      assert s[..|s| - 1] == Column(n / 26 - 1);
    }
  }

  lemma {:induction false} ColumnOfNumber(s: string)
    requires IsColumn(s)
    ensures Column(Number(s)) == s
  {
    var front, last := s[..|s| - 1], s[|s| - 1];
    assert s == front + [last];
    if |s| > 1 {
      ColumnOfNumber(front);
      assert Number(s) / 26 - 1 == Number(front) && Number(s) % 26 == Digit(last);
    }
  }

  /** Shorter names first, and alphabetically among names of one length. */
  predicate Before(a: string, b: string) {
    |a| < |b| || (|a| == |b| && Alphabetical(a, b))
  }

  predicate Alphabetical(a: string, b: string)
    requires |a| == |b|
  {
    a != "" && (a[0] < b[0] || (a[0] == b[0] && Alphabetical(a[1..], b[1..])))
  }

  /** Among strings of one length, the last character decides when the others are equal. */
  lemma {:induction false} AlphabeticalFromBehind(a: string, b: string, x: char, y: char)
    requires |a| == |b|
    ensures Alphabetical(a + [x], b + [y]) <==> Alphabetical(a, b) || (a == b && x < y)
  {
    if a == "" {
      assert a + [x] == [x] && b + [y] == [y];
    } else {
      assert (a + [x])[1..] == a[1..] + [x] && (b + [y])[1..] == b[1..] + [y];
      AlphabeticalFromBehind(a[1..], b[1..], x, y);
      assert a == [a[0]] + a[1..] && b == [b[0]] + b[1..];
    }
  }

  /** Successive columns have ascending names. */
  lemma {:induction false} ColumnsAscend(m: nat, n: nat)
    requires m < n
    ensures Before(Column(m), Column(n))
    decreases n
  {
    if n >= 26 {
      var b, y := Column(n / 26 - 1), Letter(n % 26);
      if m >= 26 {
        var a, x := Column(m / 26 - 1), Letter(m % 26);
        if m / 26 < n / 26 {
          ColumnsAscend(m / 26 - 1, n / 26 - 1);
        }
        if |a| == |b| {
          AlphabeticalFromBehind(a, b, x, y);
        }
      } else {
        assert |Column(n / 26 - 1)| >= 1 by { NumberOfColumn(n / 26 - 1); }
      }
    }
  }

  /** Column numbers and non-empty names over A to Z correspond one to one, in order. */
  lemma ColumnsAreABijection(m: nat, n: nat, s: string)
    ensures Column(m) == Column(n) <==> m == n
    ensures IsColumn(s) ==> Column(Number(s)) == s
    ensures IsColumn(Column(n)) && Number(Column(n)) == n
    ensures m < n ==> Before(Column(m), Column(n))
  {
    NumberOfColumn(m);
    NumberOfColumn(n);
    if IsColumn(s) {
      ColumnOfNumber(s);
    }
    if m < n {
      ColumnsAscend(m, n);
    }
  }

  // ---------------------------------------------------------------- escaping

  /** Every occurrence of one character replaced by a text. */
  function Replaced(s: string, c: char, text: string): string {
    if s == "" then "" else (if s[0] == c then text else [s[0]]) + Replaced(s[1..], c, text)
  }

  /** Three replacements, one after the other; the ampersand goes first. */
  function XmlEscape(s: string): string {
    Replaced(Replaced(Replaced(s, '&', "&amp;"), '<', "&lt;"), '>', "&gt;")
  }

  function EscapeChar(c: char): string {
    if c == '&' then "&amp;" else if c == '<' then "&lt;" else if c == '>' then "&gt;" else [c]
  }

  /** Each character on its own. */
  function Escaped(s: string): string {
    if s == "" then "" else EscapeChar(s[0]) + Escaped(s[1..])
  }

  /** The entity references of XML 1.0, section 4.6, that escaping produces. */
  function Unescaped(s: string): string
    decreases |s|
  {
    if s == "" then ""
    else if "&amp;" <= s then "&" + Unescaped(s[5..])
    else if "&lt;" <= s then "<" + Unescaped(s[4..])
    else if "&gt;" <= s then ">" + Unescaped(s[4..])
    else [s[0]] + Unescaped(s[1..])
  }

  lemma {:induction false} ReplacedJoins(a: string, b: string, c: char, text: string)
    ensures Replaced(a + b, c, text) == Replaced(a, c, text) + Replaced(b, c, text)
  {
    if a == "" {
      assert a + b == b;
    } else {
      assert (a + b)[1..] == a[1..] + b;
      ReplacedJoins(a[1..], b, c, text);
    }
  }

  lemma {:induction false} NothingToReplace(s: string, c: char, text: string)
    requires forall i :: 0 <= i < |s| ==> s[i] != c
    ensures Replaced(s, c, text) == s
  {
    if s != "" {
      NothingToReplace(s[1..], c, text);
    }
  }

  lemma ReplacedFirst(first: char, rest: string, c: char, text: string)
    ensures Replaced([first] + rest, c, text) == (if first == c then text else [first]) + Replaced(rest, c, text)
  {
  }

  /** One of the later replacements, after what earlier ones have made of the first character. */
  lemma ReplacedNext(done: string, rest: string, c: char, text: string)
    requires (forall i :: 0 <= i < |done| ==> done[i] != c) || done == [c]
    ensures Replaced(done + rest, c, text) == (if done == [c] then text else done) + Replaced(rest, c, text)
  {
    if done == [c] {
      ReplacedFirst(c, rest, c, text);
    } else {
      ReplacedJoins(done, rest, c, text);
      NothingToReplace(done, c, text);
    }
  }

  /** The order of the three replacements makes them one replacement, character by character. */
  lemma {:induction false} EscapingIsSimultaneous(s: string)
    ensures XmlEscape(s) == Escaped(s)
  {
    hide Replaced;
    if s == "" {
      NothingToReplace("", '&', "&amp;");
      NothingToReplace("", '<', "&lt;");
      NothingToReplace("", '>', "&gt;");
    } else {
      var c, rest := s[0], s[1..];
      assert s == [c] + rest;
      EscapingIsSimultaneous(rest);
      var r1 := Replaced(rest, '&', "&amp;");
      var r2 := Replaced(r1, '<', "&lt;");
      var f1 := if c == '&' then "&amp;" else [c];
      var f2 := if f1 == "<" then "&lt;" else f1;
      ReplacedFirst(c, rest, '&', "&amp;");
      ReplacedNext(f1, r1, '<', "&lt;");
      ReplacedNext(f2, r2, '>', "&gt;");
    }
  }

  /** Unescaping undoes escaping, for every text. */
  lemma {:induction false} UnescapeEscape(s: string)
    ensures Unescaped(XmlEscape(s)) == s
  {
    hide XmlEscape;
    EscapingIsSimultaneous(s);
    if s != "" {
      UnescapeEscape(s[1..]);
      EscapingIsSimultaneous(s[1..]);
      UnescapeOne(s[0], Escaped(s[1..]));
      assert s == [s[0]] + s[1..];
    }
  }

  lemma UnescapeOne(c: char, more: string)
    ensures Unescaped(EscapeChar(c) + more) == [c] + Unescaped(more)
  {
    var t := EscapeChar(c) + more;
    assert t[|EscapeChar(c)|..] == more;
    if c == '&' {
      assert t[..5] == "&amp;";
    } else if c == '<' {
      assert t[..4] == "&lt;" && t[1] == 'l';
    } else if c == '>' {
      assert t[..4] == "&gt;" && t[1] == 'g';
    } else {
      assert t[0] == c != '&';
    }
  }

  /** Escaped text contains no angle bracket. */
  lemma {:induction false} NoMarkupLeft(s: string)
    ensures '<' !in XmlEscape(s) && '>' !in XmlEscape(s)
  {
    hide XmlEscape;
    EscapingIsSimultaneous(s);
    if s != "" {
      NoMarkupLeft(s[1..]);
      EscapingIsSimultaneous(s[1..]);
    }
  }
}
