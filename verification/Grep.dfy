/** The pattern matcher of apps/grep.c. A C string is modelled by the characters before its NUL, so
    the tests against '\0' become tests for the end of the sequence. */
module Grep {
  // ---- what a pattern means ----

  /** A pattern is a list of single characters and starred characters; '.' stands for any character. */
  datatype Item = One(c: char) | Star(c: char)

  /** The items of a pattern without its leading '^' and final '$'. */
  function Body(re: string): seq<Item> {
    if re == "" || re == "$" then []
    else if |re| > 1 && re[1] == '*' then [Star(re[0])] + Body(re[2..])
    else [One(re[0])] + Body(re[1..])
  }

  /** Whether the pattern ends in a '$' that is an anchor, not a character or a starred character. */
  predicate Dollar(re: string) {
    if re == "" then false
    else if re == "$" then true
    else if |re| > 1 && re[1] == '*' then Dollar(re[2..])
    else Dollar(re[1..])
  }

  predicate Accepts(c: char, x: char) {
    c == '.' || c == x
  }

  /** Which words one item stands for. */
  predicate Fits(it: Item, w: string) {
    match it
    case One(c) => |w| == 1 && Accepts(c, w[0])
    case Star(c) => forall k :: 0 <= k < |w| ==> Accepts(c, w[k])
  }

  function Concat(ps: seq<string>): string {
    if ps == [] then "" else ps[0] + Concat(ps[1..])
  }

  ghost predicate Cuts(items: seq<Item>, w: string, ps: seq<string>) {
    |ps| == |items| && Concat(ps) == w && forall k :: 0 <= k < |items| ==> Fits(items[k], ps[k])
  }

  /** The language of a list of items: the words that can be cut into one piece per item. */
  ghost predicate InLanguage(items: seq<Item>, w: string) {
    exists ps :: Cuts(items, w, ps)
  }

  /** Some substring from pos on belongs to the pattern, and reaches the end if the pattern says so. */
  ghost predicate Here(re: string, text: string, pos: nat) {
    exists end: nat :: HereTo(re, text, pos, end)
  }

  ghost predicate HereTo(re: string, text: string, pos: nat, end: nat) {
    pos <= end <= |text| && InLanguage(Body(re), text[pos..end]) && (Dollar(re) ==> end == |text|)
  }

  /** What match decides: some substring of text belongs to the pattern's language, with '^' and '$'
      tying it to the ends of the text. */
  ghost predicate Matches(re: string, text: string) {
    if re != "" && re[0] == '^' then Here(re[1..], text, 0)
    else exists pos: nat :: pos <= |text| && Here(re, text, pos)
  }

  // ---- the language, item by item ----

  lemma {:induction false} EmptyLanguage(w: string)
    ensures InLanguage([], w) <==> w == ""
  {
    if InLanguage([], w) {
      var ps :| Cuts([], w, ps);
      assert ps == [];
    }
    if w == "" {
      assert Cuts([], w, []);
    }
  }

  lemma {:induction false} FirstPiece(it: Item, items: seq<Item>, w: string) returns (m: nat)
    requires InLanguage([it] + items, w)
    ensures m <= |w| && Fits(it, w[..m]) && InLanguage(items, w[m..])
  {
    var ps :| Cuts([it] + items, w, ps);
    m := |ps[0]|;
    assert w[..m] == ps[0] && w[m..] == Concat(ps[1..]);
    assert Fits(([it] + items)[0], ps[0]);
    forall k | 0 <= k < |items|
      ensures Fits(items[k], ps[1..][k])
    {
      assert Fits(([it] + items)[k + 1], ps[k + 1]);
    }
    assert Cuts(items, w[m..], ps[1..]);
  }

  lemma {:induction false} AddPiece(it: Item, items: seq<Item>, w: string, m: nat)
    requires m <= |w| && Fits(it, w[..m]) && InLanguage(items, w[m..])
    ensures InLanguage([it] + items, w)
  {
    var rest :| Cuts(items, w[m..], rest);
    var ps, all := [w[..m]] + rest, [it] + items;
    assert ps[1..] == rest && w == w[..m] + w[m..];
    forall k | 0 <= k < |all|
      ensures Fits(all[k], ps[k])
    {
      assert k > 0 ==> all[k] == items[k - 1] && ps[k] == rest[k - 1];
    }
    assert Cuts(all, w, ps);
  }

  // ---- how Here unfolds along the pattern ----

  lemma {:induction false} HereEmpty(text: string, pos: nat)
    requires pos <= |text|
    ensures Here("", text, pos)
  {
    EmptyLanguage(text[pos..pos]);
    assert HereTo("", text, pos, pos);
  }

  lemma {:induction false} HereEnd(text: string, pos: nat)
    requires pos <= |text|
    ensures Here("$", text, pos) <==> pos == |text|
  {
    EmptyLanguage(text[pos..]);
    assert text[pos..|text|] == text[pos..];
    if pos == |text| {
      assert HereTo("$", text, pos, |text|);
    }
  }

  lemma {:induction false} HereItem(re: string, it: Item, rest: string, text: string, pos: nat)
    requires Body(re) == [it] + Body(rest) && Dollar(re) == Dollar(rest) && pos <= |text|
    ensures Here(re, text, pos) <==>
              exists mid: nat :: pos <= mid <= |text| && Fits(it, text[pos..mid]) && Here(rest, text, mid)
  {
    if Here(re, text, pos) {
      var end: nat :| HereTo(re, text, pos, end);
      var m := FirstPiece(it, Body(rest), text[pos..end]);
      assert text[pos..end][..m] == text[pos..pos + m] && text[pos..end][m..] == text[pos + m..end];
      assert HereTo(rest, text, pos + m, end);
    }
    if mid: nat :| pos <= mid <= |text| && Fits(it, text[pos..mid]) && Here(rest, text, mid) {
      var end: nat :| HereTo(rest, text, mid, end);
      var w := text[pos..end];
      assert w[..mid - pos] == text[pos..mid] && w[mid - pos..] == text[mid..end];
      AddPiece(it, Body(rest), w, mid - pos);
      assert HereTo(re, text, pos, end);
    }
  }

  lemma {:induction false} HereOne(re: string, text: string, pos: nat)
    requires re != "" && re != "$" && !(|re| > 1 && re[1] == '*') && pos <= |text|
    ensures Here(re, text, pos) <==> pos < |text| && Accepts(re[0], text[pos]) && Here(re[1..], text, pos + 1)
  {
    HereItem(re, One(re[0]), re[1..], text, pos);
    if pos < |text| && Accepts(re[0], text[pos]) && Here(re[1..], text, pos + 1) {
      assert text[pos..pos + 1] == [text[pos]];
      assert Fits(One(re[0]), text[pos..pos + 1]);
    }
  }

  // ---- the code ----

  /** matchhere (grep.c:95-113). */
  method MatchHere(re: string, text: string, pos: nat) returns (r: bool)
    requires pos <= |text|
    ensures r <==> Here(re, text, pos)
    decreases |re|, 0
  {
    if |re| == 0 {
      HereEmpty(text, pos);
      return true;
    }
    if |re| > 1 && re[1] == '*' {
      r := MatchStar(re[0], re[2..], text, pos);
      HereItem(re, Star(re[0]), re[2..], text, pos);
      return;
    }
    if re[0] == '$' && |re| == 1 {
      HereEnd(text, pos);
      return pos == |text|;
    }
    HereOne(re, text, pos);
    if pos < |text| && (re[0] == '.' || re[0] == text[pos]) {
      r := MatchHere(re[1..], text, pos + 1);
      return;
    }
    return false;
  }

  /** matchstar (grep.c:116-124): the shortest run of c first. */
  method MatchStar(c: char, re: string, text: string, pos: nat) returns (r: bool)
    requires pos <= |text|
    ensures r <==> exists mid: nat :: pos <= mid <= |text| && Fits(Star(c), text[pos..mid]) && Here(re, text, mid)
    decreases |re|, 1
  {
    var i := pos;
    while true
      invariant pos <= i <= |text| && Fits(Star(c), text[pos..i])
      invariant forall mid: nat :: pos <= mid < i ==> !Here(re, text, mid)
      decreases |text| - i
    {
      r := MatchHere(re, text, i);
      if r {
        return true;
      }
      if !(i < |text| && (text[i] == c || c == '.')) {
        break;
      }
      assert text[pos..i + 1] == text[pos..i] + [text[i]];
      i := i + 1;
    }
    forall mid: nat | pos <= mid <= |text|
      ensures Fits(Star(c), text[pos..mid]) ==> mid <= i
    {
      StarStops(c, text, pos, i, mid);
    }
    return false;
  }

  lemma {:induction false} StarStops(c: char, text: string, pos: nat, i: nat, mid: nat)
    requires pos <= i <= |text| && (i < |text| ==> !Accepts(c, text[i])) && pos <= mid <= |text|
    ensures Fits(Star(c), text[pos..mid]) ==> mid <= i
  {
    if mid > i {
      assert text[pos..mid][i - pos] == text[i];
      assert !Fits(Star(c), text[pos..mid]);
    }
  }

  /** match (grep.c:80-92). */
  method Match(re: string, text: string) returns (r: bool)
    ensures r <==> Matches(re, text)
  {
    if |re| > 0 && re[0] == '^' {
      r := MatchHere(re[1..], text, 0);
      return;
    }
    var pos := 0;
    while true
      invariant 0 <= pos <= |text|
      invariant forall i: nat :: i < pos ==> !Here(re, text, i)
      decreases |text| - pos
    {
      r := MatchHere(re, text, pos);
      if r {
        return true;
      }
      if pos == |text| {
        return false;
      }
      pos := pos + 1;
    }
  }

  // ---- how the code reads the special characters ----

  /** An ordinary word is found exactly where it occurs as a substring. */
  lemma {:induction false} PlainWord(re: string, w: string)
    requires forall k :: 0 <= k < |re| ==> re[k] != '.' && re[k] != '*' && re[k] != '$'
    ensures InLanguage(Body(re), w) <==> w == re
    ensures !Dollar(re)
  {
    if re == "" {
      EmptyLanguage(w);
    } else {
      var it, rest := One(re[0]), re[1..];
      assert Body(re) == [it] + Body(rest);
      if InLanguage(Body(re), w) {
        var m := FirstPiece(it, Body(rest), w);
        PlainWord(rest, w[m..]);
        assert w == w[..m] + w[m..];
      }
      PlainWord(rest, rest);
      if w == re {
        assert w[1..] == rest && w[..1] == [re[0]];
        AddPiece(it, Body(rest), w, 1);
      }
    }
  }
}
