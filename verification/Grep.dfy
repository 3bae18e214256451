// grep's regular expression matcher (grep.c), against a declarative meaning of
// its patterns.  Strings are C strings without their final NUL.
module Grep {
  // A pattern is a sequence of items: one character, any run of a character,
  // or the end of the text.  In both of the first two '.' stands for any
  // character.
  datatype Item = One(c: char) | Star(c: char) | End

  // '*' after a character makes it a run; '$' is special only at the very end;
  // anywhere else '*', '$' and '^' are ordinary.
  function Items(re: string): seq<Item> {
    if re == "" then []
    else if |re| >= 2 && re[1] == '*' then [Star(re[0])] + Items(re[2..])
    else if re == "$" then [End]
    else [One(re[0])] + Items(re[1..])
  }

  predicate Fits(c: char, x: char) { c == '.' || x == c }

  predicate AllFit(c: char, w: string) { forall i | 0 <= i < |w| :: Fits(c, w[i]) }

  predicate Piece(item: Item, w: string) {
    match item
    case One(c) => |w| == 1 && Fits(c, w[0])
    case Star(c) => AllFit(c, w)
    case End => w == ""
  }

  function Concat(ws: seq<string>): string {
    if ws == [] then "" else ws[0] + Concat(ws[1..])
  }

  // text begins with the pieces ws, one for each item, and ends with them if
  // the items say so.
  ghost predicate Splits(items: seq<Item>, ws: seq<string>, text: string) {
    && |ws| == |items|
    && (forall i | 0 <= i < |ws| :: Piece(items[i], ws[i]))
    && Concat(ws) <= text
    && (End in items ==> Concat(ws) == text)
  }

  // Some prefix of text is in the language of the pattern.
  ghost predicate Matches(items: seq<Item>, text: string) {
    exists ws :: Splits(items, ws, text)
  }

  // --- how the language unfolds ---

  lemma MatchesNone(text: string)
    ensures Matches([], text)
  {
    assert Splits([], [], text);
  }

  lemma MatchesEnd(text: string)
    ensures Matches([End], text) <==> text == ""
  {
    if Matches([End], text) {
      var ws :| Splits([End], ws, text);
      assert Concat(ws) == ws[0] + Concat(ws[1..]);
    }
    if text == "" { assert Splits([End], [""], text); }
  }

  // The rest of the text after a first piece w.
  lemma Rest(item: Item, items: seq<Item>, ws: seq<string>, text: string)
    requires item != End && Splits([item] + items, ws, text)
    ensures |ws| > 0 && Piece(item, ws[0]) && ws[0] <= text && Splits(items, ws[1..], text[|ws[0]|..])
  {
    var all := [item] + items;
    assert Concat(ws) == ws[0] + Concat(ws[1..]);
    assert Piece(all[0], ws[0]);
    forall i | 0 <= i < |ws| - 1 ensures Piece(items[i], ws[1..][i]) { assert Piece(all[i + 1], ws[i + 1]); }
    assert End in items ==> End in all;
  }

  lemma First(item: Item, items: seq<Item>, w: string, ws: seq<string>, text: string)
    requires item != End && Piece(item, w) && w <= text && Splits(items, ws, text[|w|..])
    ensures Splits([item] + items, [w] + ws, text)
  {
    assert ([w] + ws)[1..] == ws;
    assert text == w + text[|w|..];
  }

  lemma MatchesOne(c: char, items: seq<Item>, text: string)
    ensures Matches([One(c)] + items, text) <==> text != "" && Fits(c, text[0]) && Matches(items, text[1..])
  {
    if Matches([One(c)] + items, text) {
      var ws :| Splits([One(c)] + items, ws, text);
      Rest(One(c), items, ws, text);
    }
    if text != "" && Fits(c, text[0]) && Matches(items, text[1..]) {
      var ws :| Splits(items, ws, text[1..]);
      First(One(c), items, text[..1], ws, text);
    }
  }

  lemma MatchesStar(c: char, items: seq<Item>, text: string)
    ensures Matches([Star(c)] + items, text) <==>
            exists k :: 0 <= k <= |text| && AllFit(c, text[..k]) && Matches(items, text[k..])
  {
    if Matches([Star(c)] + items, text) {
      var ws :| Splits([Star(c)] + items, ws, text);
      Rest(Star(c), items, ws, text);
      var k := |ws[0]|;
      assert text[..k] == ws[0] && Matches(items, text[k..]);
    }
    if k :| 0 <= k <= |text| && AllFit(c, text[..k]) && Matches(items, text[k..]) {
      var ws :| Splits(items, ws, text[k..]);
      First(Star(c), items, text[..k], ws, text);
    }
  }

  lemma RunEnds(c: char, text: string, i: nat, k: nat)
    requires i < k <= |text| && !Fits(c, text[i])
    ensures !AllFit(c, text[..k])
  {
    assert text[..k][i] == text[i];
  }

  // --- the matcher ---

  method MatchHere(re: string, text: string) returns (r: bool)
    ensures r <==> Matches(Items(re), text)
    decreases |re|, 0
  {
    if re == "" {
      MatchesNone(text);
      return true;
    }
    if |re| >= 2 && re[1] == '*' {
      r := MatchStar(re[0], re[2..], text);
      return;
    }
    if re == "$" {
      MatchesEnd(text);
      return text == "";
    }
    MatchesOne(re[0], Items(re[1..]), text);
    if text != "" && (re[0] == '.' || re[0] == text[0]) {
      r := MatchHere(re[1..], text[1..]);
      return;
    }
    return false;
  }

  method MatchStar(c: char, re: string, text: string) returns (r: bool)
    ensures r <==> Matches([Star(c)] + Items(re), text)
    decreases |re|, 1
  {
    MatchesStar(c, Items(re), text);
    var i := 0;
    while true
      invariant 0 <= i <= |text| && AllFit(c, text[..i])
      invariant forall k | 0 <= k < i :: !Matches(Items(re), text[k..])
      decreases |text| - i
    {
      r := MatchHere(re, text[i..]);
      if r { return true; }
      if i == |text| || !(text[i] == c || c == '.') {
        forall k | i < k <= |text| ensures !AllFit(c, text[..k]) { RunEnds(c, text, i, k); }
        return false;
      }
      i := i + 1;
    }
  }

  method Match(re: string, text: string) returns (r: bool)
    ensures r <==> if re != "" && re[0] == '^' then Matches(Items(re[1..]), text)
                   else exists k :: 0 <= k <= |text| && Matches(Items(re), text[k..])
  {
    if re != "" && re[0] == '^' {
      r := MatchHere(re[1..], text);
      return;
    }
    var i := 0;
    while true
      invariant 0 <= i <= |text|
      invariant forall k | 0 <= k < i :: !Matches(Items(re), text[k..])
      decreases |text| - i
    {
      r := MatchHere(re, text[i..]);
      if r { return true; }
      if i == |text| { return false; }
      i := i + 1;
    }
  }
}
