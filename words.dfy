/**
 * Splitting a command line into words, as Go's `strings.Fields` does:
 * the string is cut around each maximal run of white space (in the sense of
 * `unicode.IsSpace`) and no empty piece is kept.
 */
module Words {

  /**
   * The characters Go's `unicode.IsSpace` reports as white space: in the
   * Latin-1 range tab, line feed, vertical tab, form feed, carriage return,
   * blank, NEL and no-break space; beyond it the other characters with the
   * Unicode White_Space property.
   */
  predicate IsSpace(c: char) {
    var n := c as int;
    if n <= 0xFF then
      (9 <= n <= 13) || n == 0x20 || n == 0x85 || n == 0xA0
    else
      n == 0x1680 || (0x2000 <= n <= 0x200A) || n == 0x2028 || n == 0x2029
      || n == 0x202F || n == 0x205F || n == 0x3000
  }

  /** `s` holds no white space at all. */
  predicate NoSpace(s: string) {
    forall i :: 0 <= i < |s| ==> !IsSpace(s[i])
  }

  /** A word: a non-empty string without white space. */
  predicate IsWord(w: string) {
    w != [] && NoSpace(w)
  }

  /** The longest prefix of `s` that holds no white space. */
  function Word(s: string): (w: string)
    ensures w <= s && NoSpace(w)
    ensures |w| < |s| ==> IsSpace(s[|w|])
  {
    if s == [] || IsSpace(s[0]) then [] else [s[0]] + Word(s[1..])
  }

  /** The words of `s`, left to right: `strings.Fields(s)`. */
  function Fields(s: string): (ws: seq<string>)
    ensures forall i :: 0 <= i < |ws| ==> IsWord(ws[i])
    decreases |s|
  {
    if s == [] then []
    else if IsSpace(s[0]) then Fields(s[1..])
    else
      var w := Word(s);
      [w] + Fields(s[|w|..])
  }

  /** The words `ws` written one after another, each pair separated by one blank. */
  function Unwords(ws: seq<string>): string {
    if ws == [] then "" else if |ws| == 1 then ws[0] else ws[0] + " " + Unwords(ws[1..])
  }

  /** Appending white space and more text after a prefix does not change the prefix's first word. */
  lemma {:induction false} WordBeforeSpace(a: string, t: string)
    requires t != [] && IsSpace(t[0])
    ensures Word(a + t) == Word(a)
    decreases |a|
  {
    if a == [] {
      assert a + t == t;
    } else if IsSpace(a[0]) {
      assert (a + t)[0] == a[0];
    } else {
      assert (a + t)[0] == a[0] && (a + t)[1..] == a[1..] + t;
      WordBeforeSpace(a[1..], t);
    }
  }

  /** Two strings glued with one white-space character split into the words of each, in order. */
  lemma {:induction false} FieldsAround(a: string, c: char, b: string)
    requires IsSpace(c)
    ensures Fields(a + [c] + b) == Fields(a) + Fields(b)
    decreases |a|
  {
    var s := a + [c] + b;
    if a == [] {
      assert s == [c] + b && s[1..] == b;
    } else if IsSpace(a[0]) {
      assert s[0] == a[0] && s[1..] == a[1..] + [c] + b;
      FieldsAround(a[1..], c, b);
    } else {
      assert s[0] == a[0];
      assert s == a + ([c] + b);
      WordBeforeSpace(a, [c] + b);
      var w := Word(a);
      assert |w| > 0;
      assert s[|w|..] == a[|w|..] + [c] + b;
      FieldsAround(a[|w|..], c, b);
    }
  }

  /** A word splits into itself. */
  lemma {:induction false} FieldsOfWord(w: string)
    requires IsWord(w)
    ensures Fields(w) == [w]
  {
    WordWhole(w);
    assert w[|w|..] == [];
  }

  /** A string without white space is its own first word. */
  lemma {:induction false} WordWhole(w: string)
    requires NoSpace(w)
    ensures Word(w) == w
    decreases |w|
  {
    if w != [] {
      WordWhole(w[1..]);
    }
  }

  /** Round trip: joining words with blanks and splitting again gives the same words. */
  lemma {:induction false} FieldsUnwords(ws: seq<string>)
    requires forall i :: 0 <= i < |ws| ==> IsWord(ws[i])
    ensures Fields(Unwords(ws)) == ws
    decreases |ws|
  {
    if ws == [] {
    } else if |ws| == 1 {
      FieldsOfWord(ws[0]);
    } else {
      FieldsUnwords(ws[1..]);
      FieldsOfWord(ws[0]);
      assert ws[0] + " " + Unwords(ws[1..]) == ws[0] + [' '] + Unwords(ws[1..]);
      FieldsAround(ws[0], ' ', Unwords(ws[1..]));
    }
  }
}
