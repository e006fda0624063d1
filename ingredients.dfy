/** The ingredient parser: the normaliser's free text becomes a clean, ordered list of
    ingredient names (main.py:100-104), and the inverse direction, the `", "`-join of a
    list that feeds the prompts (main.py:74 and main.py:113). */
module Ingredients {
  import opened Strings

  /** The parser's argument: text, or any other Python value. */
  datatype Value = NotText | Text(s: string)

  /** A well-formed ingredient: non-empty, no surrounding whitespace, no comma. */
  predicate Clean(x: string) {
    x != [] && Trimmed(x) && ',' !in x
  }

  /** One step of the comprehension: `[piece.strip()]` when the piece is non-empty and not
      whitespace-only, nothing otherwise. */
  function KeepPiece(p: string): (r: seq<string>)
    ensures |r| <= 1
    ensures r == [] <==> AllSpace(p)
    ensures r != [] ==> r[0] == Strip(p)
  {
    if p != [] && Strip(p) != [] then [Strip(p)] else []
  }

  /** The comprehension's filter and map over all pieces, in order. */
  function Keep(pieces: seq<string>): (r: seq<string>)
    ensures |r| <= |pieces|
  {
    if pieces == [] then [] else KeepPiece(pieces[0]) + Keep(pieces[1..])
  }

  /** `parse_ingredient_list`: a non-text argument gives the empty list; text is split on
      commas, each piece stripped, and empty or whitespace-only pieces dropped, so there are
      never more items than comma-separated pieces. */
  function ParseIngredientList(v: Value): (r: seq<string>)
    ensures v.NotText? ==> r == []
    ensures v.Text? ==> |r| <= |Split(v.s, ',')|
  {
    match v
    case NotText => []
    case Text(s) => Keep(Split(s, ','))
  }

  /** Comma-free pieces give clean items. */
  lemma {:induction false} KeepClean(pieces: seq<string>)
    requires forall k :: 0 <= k < |pieces| ==> ',' !in pieces[k]
    ensures forall k :: 0 <= k < |Keep(pieces)| ==> Clean(Keep(pieces)[k])
  {
    if pieces != [] {
      KeepClean(pieces[1..]);
      StripChars(pieces[0]);
    }
  }

  /** Every item the parser returns is clean: non-empty, not whitespace-only, without
      surrounding whitespace and without a comma. */
  lemma ParseClean(v: Value)
    ensures forall k :: 0 <= k < |ParseIngredientList(v)| ==> Clean(ParseIngredientList(v)[k])
  {
    if v.Text? {
      SplitPieces(v.s, ',');
      KeepClean(Split(v.s, ','));
    }
  }

  lemma {:induction false} KeepConcat(a: seq<string>, b: seq<string>)
    ensures Keep(a + b) == Keep(a) + Keep(b)
  {
    if a == [] {
      assert a + b == b;
    } else {
      assert (a + b)[0] == a[0];
      assert (a + b)[1..] == a[1..] + b;
      KeepConcat(a[1..], b);
      calc {
        Keep(a + b);
        KeepPiece(a[0]) + Keep(a[1..] + b);
        KeepPiece(a[0]) + (Keep(a[1..]) + Keep(b));
      }
    }
  }

  /** Parsing distributes over a comma: the items of the text before it, then those after it. */
  lemma ParseConcat(a: string, b: string)
    ensures ParseIngredientList(Text(a + [','] + b)) == ParseIngredientList(Text(a)) + ParseIngredientList(Text(b))
  {
    SplitConcat(a, b, ',');
    KeepConcat(Split(a, ','), Split(b, ','));
  }

  /** A text without a comma is one piece: it gives its stripped form, or nothing if it is
      whitespace-only. With `ParseConcat` this determines the parser on every text. */
  lemma ParseNoComma(s: string)
    requires ',' !in s
    ensures ParseIngredientList(Text(s)) == if AllSpace(s) then [] else [Strip(s)]
  {
    SplitNoSep(s, ',');
    assert Split(s, ',')[1..] == [];
  }

  /** Whitespace in front of the text never changes the result. */
  lemma ParseLeadingSpace(c: char, s: string)
    requires IsSpace(c)
    ensures ParseIngredientList(Text([c] + s)) == ParseIngredientList(Text(s))
  {
  }

  /** A whitespace-free, comma-free, non-empty item survives parsing unchanged. */
  lemma ParseItem(x: string)
    requires Clean(x)
    ensures ParseIngredientList(Text(x)) == [x]
  {
    ParseNoComma(x);
    StripTrimmed(x);
  }

  /** One clean item in front of `", "` contributes exactly itself. */
  lemma ParseItemThenRest(x: string, rest: string)
    requires Clean(x)
    ensures ParseIngredientList(Text(x + ", " + rest)) == [x] + ParseIngredientList(Text(rest))
  {
    var padded := [' '] + rest;
    assert x + ", " + rest == x + [','] + padded;
    assert ParseIngredientList(Text(x + [','] + padded))
        == ParseIngredientList(Text(x)) + ParseIngredientList(Text(padded)) by {
      ParseConcat(x, padded);
    }
    ParseItem(x);
    ParseLeadingSpace(' ', rest);
  }

  /** Round trip: parsing the `", "`-join of clean items gives the items back in order. */
  lemma {:induction false} ParseJoinRoundTrip(xs: seq<string>)
    requires forall k :: 0 <= k < |xs| ==> Clean(xs[k])
    ensures ParseIngredientList(Text(Join(xs, ", "))) == xs
  {
    if |xs| == 0 {
      ParseNoComma([]);
    } else if |xs| == 1 {
      ParseItem(xs[0]);
    } else {
      ParseJoinRoundTrip(xs[1..]);
      ParseItemThenRest(xs[0], Join(xs[1..], ", "));
      assert xs == [xs[0]] + xs[1..];
    }
  }

  /** Parsing is idempotent through the join: a parsed list, joined and parsed again, is unchanged. */
  lemma ParseIdempotent(v: Value)
    ensures ParseIngredientList(Text(Join(ParseIngredientList(v), ", "))) == ParseIngredientList(v)
  {
    ParseClean(v);
    ParseJoinRoundTrip(ParseIngredientList(v));
  }

  /** An item padded with one space on each side parses to the bare item. */
  lemma ParsePadded(x: string)
    requires Clean(x)
    ensures ParseIngredientList(Text(Padded(x))) == [x]
  {
    var y := x + [' '];
    assert Padded(x) == [' '] + y;
    assert ParseIngredientList(Text([' '] + y)) == ParseIngredientList(Text(y)) by {
      ParseLeadingSpace(' ', y);
    }
    assert Strip(y) == x by {
      assert TrimLeft(y) == y;
      assert y[..|y| - 1] == x;
      assert TrimRight(x) == x;
    }
    assert ParseIngredientList(Text(y)) == [Strip(y)] by {
      assert ',' !in y;
      ParseNoComma(y);
    }
  }

  /** The shape of `"Tomato, , Cheese ,  Basil"`: a blank piece vanishes, the spaces around
      each item go, and the items keep their order. */
  lemma ParseExample(a: string, b: string, c: string)
    requires Clean(a) && Clean(b) && Clean(c)
    ensures ParseIngredientList(Text(a + ", , " + b + " ,  " + c)) == [a, b, c]
  {
    var tail := Padded(b) + [','] + [' '] + [' '] + c;
    ExampleText(a, b, c);
    ParseItemThenRest(a, [','] + tail);
    ParseBlankThenRest(tail);
    ParseTwoPadded(b, c);
  }

  function Padded(x: string): string {
    [' '] + x + [' ']
  }

  lemma ExampleText(a: string, b: string, c: string)
    ensures a + ", , " + b + " ,  " + c == a + ", " + ([','] + (Padded(b) + [','] + [' '] + [' '] + c))
  {
  }

  lemma ParseBlankThenRest(tail: string)
    ensures ParseIngredientList(Text([','] + tail)) == ParseIngredientList(Text(tail))
  {
  }

  lemma ParseTwoPadded(b: string, c: string)
    requires Clean(b) && Clean(c)
    ensures ParseIngredientList(Text(Padded(b) + [','] + [' '] + [' '] + c)) == [b, c]
  {
    var last := [' '] + ([' '] + c);
    assert Padded(b) + [','] + [' '] + [' '] + c == Padded(b) + [','] + last;
    ParseConcat(Padded(b), last);
    ParsePadded(b);
    ParseTwoSpaces(c);
  }

  lemma ParseTwoSpaces(c: string)
    requires Clean(c)
    ensures ParseIngredientList(Text([' '] + ([' '] + c))) == [c]
  {
    ParseLeadingSpace(' ', [' '] + c);
    ParseLeadingSpace(' ', c);
    ParseItem(c);
  }
}
