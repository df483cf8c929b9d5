// The regular expression matcher of Ass2/grep.c against a declarative language.

module Grep {

  // ---------- the language of a pattern ----------

  datatype Item =
    | One(c: char)     // this character, or any if '.'
    | Star(c: char)    // zero or more of them
    | End              // only at the end of the text

  /** The items a pattern denotes; '$' means End only as the last, unstarred character. */
  function Items(re: string): seq<Item> {
    if re == "" then []
    else if |re| >= 2 && re[1] == '*' then [Star(re[0])] + Items(re[2..])
    else if re == "$" then [End]
    else [One(re[0])] + Items(re[1..])
  }

  predicate Symbol(c: char, x: char) {
    c == '.' || c == x
  }

  predicate Piece(item: Item, w: string) {
    match item
    case One(c) => |w| == 1 && Symbol(c, w[0])
    case Star(c) => forall i :: 0 <= i < |w| ==> Symbol(c, w[i])
    case End => w == ""
  }

  function Concat(ws: seq<string>): string {
    if ws == [] then "" else ws[0] + Concat(ws[1..])
  }

  /** ws cuts a prefix of the text into one piece per item, leaving rest. */
  predicate Cut(items: seq<Item>, text: string, ws: seq<string>, rest: string) {
    && |ws| == |items| && text == Concat(ws) + rest
    && (forall i :: 0 <= i < |ws| ==> Piece(items[i], ws[i]))
    && (End in items ==> rest == "")
  }

  /** Some prefix of the text is in the language of re. */
  ghost predicate Here(re: string, text: string) {
    exists ws, rest :: Cut(Items(re), text, ws, rest)
  }

  /** The text has a substring in the language, at the start if the pattern begins with ^. */
  ghost predicate Somewhere(re: string, text: string) {
    if re != "" && re[0] == '^' then Here(re[1..], text)
    else exists i :: 0 <= i <= |text| && Here(re, text[i..])
  }

  // ---------- how the language unfolds along a pattern ----------

  lemma HereCons(item: Item, re: string, sub: string, text: string, w: string)
    requires Items(re) == [item] + Items(sub) && item != End
    requires |w| <= |text| && text[..|w|] == w && Piece(item, w) && Here(sub, text[|w|..])
    ensures Here(re, text)
  {
    var ws, rest :| Cut(Items(sub), text[|w|..], ws, rest);
    var ws' := [w] + ws;
    assert text == w + text[|w|..];
    assert ws'[1..] == ws;
    assert Concat(ws') + rest == w + (Concat(ws) + rest);
    assert Cut(Items(re), text, ws', rest);
  }

  lemma HereUncons(item: Item, re: string, sub: string, text: string) returns (w: string)
    requires Items(re) == [item] + Items(sub) && Here(re, text)
    ensures |w| <= |text| && text[..|w|] == w && Piece(item, w) && Here(sub, text[|w|..])
  {
    var ws, rest :| Cut(Items(re), text, ws, rest);
    w := ws[0];
    assert text == w + (Concat(ws[1..]) + rest);
    assert text[|w|..] == Concat(ws[1..]) + rest;
    assert Items(re)[1..] == Items(sub);
    assert Cut(Items(sub), text[|w|..], ws[1..], rest);
  }

  lemma HereEmpty(text: string)
    ensures Here("", text)
  {
    assert Cut(Items(""), text, [], text);
  }

  lemma HereEnd(text: string)
    ensures Here("$", text) <==> text == ""
  {
    assert Items("$") == [End];
    if text == "" {
      assert Concat([""]) == "" + Concat([""][1..]);
      assert Cut(Items("$"), text, [""], "");
    }
    if Here("$", text) {
      var ws, rest :| Cut(Items("$"), text, ws, rest);
      assert ws == [""] && Concat(ws) == "" + Concat(ws[1..]);
    }
  }

  lemma HereOne(re: string, text: string)
    requires re != "" && !(|re| >= 2 && re[1] == '*') && re != "$"
    ensures Here(re, text) <==> text != "" && Symbol(re[0], text[0]) && Here(re[1..], text[1..])
  {
    if Here(re, text) {
      var w := HereUncons(One(re[0]), re, re[1..], text);
    }
    if text != "" && Symbol(re[0], text[0]) && Here(re[1..], text[1..]) {
      HereCons(One(re[0]), re, re[1..], text, text[..1]);
    }
  }

  /** The first k characters are all instances of c, and sub matches after them. */
  ghost predicate StarAt(c: char, sub: string, text: string, k: int) {
    0 <= k <= |text| && (forall i :: 0 <= i < k ==> Symbol(c, text[i])) && Here(sub, text[k..])
  }

  lemma HereStar(re: string, text: string)
    requires |re| >= 2 && re[1] == '*'
    ensures Here(re, text) <==> exists k :: StarAt(re[0], re[2..], text, k)
  {
    if Here(re, text) {
      var w := HereUncons(Star(re[0]), re, re[2..], text);
      assert forall i :: 0 <= i < |w| ==> text[i] == w[i];
      assert StarAt(re[0], re[2..], text, |w|);
    }
    if k :| StarAt(re[0], re[2..], text, k) {
      HereCons(Star(re[0]), re, re[2..], text, text[..k]);
    }
  }

  // ---------- the matcher ----------

  /** matchhere: exactly the patterns whose language has a prefix of the text. */
  method MatchHere(re: string, text: string) returns (found: bool)
    ensures found <==> Here(re, text)
    decreases |re|, 0
  {
    if re == "" {
      HereEmpty(text);
      return true;
    }
    if |re| >= 2 && re[1] == '*' {
      HereStar(re, text);
      found := MatchStar(re[0], re[2..], text);
      return;
    }
    if re[0] == '$' && |re| == 1 {
      assert re == "$";
      HereEnd(text);
      return text == "";
    }
    HereOne(re, text);
    if text != "" && (re[0] == '.' || re[0] == text[0]) {
      found := MatchHere(re[1..], text[1..]);
      return;
    }
    return false;
  }

  /** matchstar: the shortest run of c after which re matches, if there is one. */
  method MatchStar(c: char, re: string, text: string) returns (found: bool)
    ensures found <==> exists k :: StarAt(c, re, text, k)
    decreases |re|, 1
  {
    var k := 0;
    while true
      invariant 0 <= k <= |text|
      invariant forall i :: 0 <= i < k ==> Symbol(c, text[i]) && !StarAt(c, re, text, i)
      decreases |text| - k
    {
      var here := MatchHere(re, text[k..]);
      if here {
        assert StarAt(c, re, text, k);
        return true;
      }
      if k < |text| && (text[k] == c || c == '.') {
        k := k + 1;
      } else {
        assert forall j :: StarAt(c, re, text, j) ==> j <= k;
        return false;
      }
    }
  }

  /** match: the whole search, anchored or not, the empty suffix included. */
  method Match(re: string, text: string) returns (found: bool)
    ensures found <==> Somewhere(re, text)
  {
    if re != "" && re[0] == '^' {
      found := MatchHere(re[1..], text);
      return;
    }
    var i := 0;
    while true
      invariant 0 <= i <= |text|
      invariant forall j :: 0 <= j < i ==> !Here(re, text[j..])
      decreases |text| - i
    {
      var here := MatchHere(re, text[i..]);
      if here {
        return true;
      }
      if i == |text| {
        return false;
      }
      i := i + 1;
    }
  }
}
