/** The regular expression matcher of user/grep.c, with the operators ^ . * $.  A C string is a sequence
    of characters; its end stands for the terminating NUL. */
module Grep {

  // ---------------------------------------------------------------- the matcher

  /** matchhere(): does re match at the beginning of text? */
  predicate Here(re: string, text: string)
    decreases |re|, 0, |text|
  {
    if re == [] then true
    else if |re| > 1 && re[1] == '*' then Star(re[0], re[2..], text)
    else if re == "$" then text == []
    else text != [] && (re[0] == '.' || re[0] == text[0]) && Here(re[1..], text[1..])
  }

  /** matchstar(): does c*re match at the beginning of text? */
  predicate Star(c: char, re: string, text: string)
    decreases |re|, 1, |text|
  {
    Here(re, text) || (text != [] && (text[0] == c || c == '.') && Star(c, re, text[1..]))
  }

  method Matchhere(re: string, text: string) returns (r: bool)
    ensures r == Here(re, text)
    decreases |re|, 0
  {
    if re == [] {
      return true;
    }
    if |re| > 1 && re[1] == '*' {
      r := Matchstar(re[0], re[2..], text);
      return;
    }
    if re == "$" {
      return text == [];
    }
    if text != [] && (re[0] == '.' || re[0] == text[0]) {
      r := Matchhere(re[1..], text[1..]);
      return;
    }
    return false;
  }

  method Matchstar(c: char, re: string, text: string) returns (r: bool)
    ensures r == Star(c, re, text)
    decreases |re|, 1
  {
    var rest := text;
    while true
      invariant Star(c, re, rest) == Star(c, re, text)
      decreases |rest|
    {
      r := Matchhere(re, rest);
      if r {
        return;
      }
      if rest == [] || !(rest[0] == c || c == '.') {
        return false;
      }
      rest := rest[1..];
    }
  }

  /** match() */
  method Match(re: string, text: string) returns (r: bool)
    ensures r == Meaning(re, text)
  {
    if re != [] && re[0] == '^' {
      r := Matchhere(re[1..], text);
      HereMeans(re[1..], text);
      return;
    }
    var k := 0;
    while true
      invariant 0 <= k <= |text| && forall i :: 0 <= i < k ==> !MatchesAt(Items(re), text, i)
      decreases |text| - k
    {
      HereMeans(re, text[k..]);
      r := Matchhere(re, text[k..]);
      if r {
        assert MatchesAt(Items(re), text, k);
        return;
      }
      if k == |text| {
        return false;
      }
      k := k + 1;
    }
  }

  // ---------------------------------------------------------------- what a pattern means

  /** One character (any one, for a dot), any number of such characters, the end of the text. */
  datatype Item = One(c: char) | Many(c: char) | End

  function Items(re: string): seq<Item>
  {
    if re == [] then []
    else if |re| > 1 && re[1] == '*' then [Many(re[0])] + Items(re[2..])
    else if re == "$" then [End]
    else [One(re[0])] + Items(re[1..])
  }

  predicate Fits(c: char, x: char) { c == '.' || c == x }

  /** The string w is one that the item stands for. */
  ghost predicate Stands(item: Item, w: string)
  {
    match item
    case One(c) => |w| == 1 && Fits(c, w[0])
    case Many(c) => forall i :: 0 <= i < |w| ==> Fits(c, w[i])
    case End => w == []
  }

  function Joined(ws: seq<string>): string
  {
    if ws == [] then [] else ws[0] + Joined(ws[1..])
  }

  /** The text begins with strings the items stand for, one for each, and ends there if it has to. */
  ghost predicate Spelled(items: seq<Item>, text: string, ws: seq<string>)
  {
    && |ws| == |items| && Joined(ws) <= text && (forall i :: 0 <= i < |items| ==> Stands(items[i], ws[i]))
    && (End in items ==> Joined(ws) == text)
  }

  ghost predicate Begins(items: seq<Item>, text: string)
  {
    exists ws :: Spelled(items, text, ws)
  }

  ghost predicate MatchesAt(items: seq<Item>, text: string, k: nat)
    requires k <= |text|
  {
    Begins(items, text[k..])
  }

  /** A pattern that starts with ^ must match at the beginning; any other may match anywhere. */
  ghost predicate Meaning(re: string, text: string)
  {
    if re != [] && re[0] == '^' then Begins(Items(re[1..]), text)
    else exists k :: 0 <= k <= |text| && MatchesAt(Items(re), text, k)
  }

  /** First item and the rest. */
  lemma SpelledCons(item: Item, items: seq<Item>, text: string, w: string, ws: seq<string>)
    requires !item.End?
    ensures Spelled([item] + items, text, [w] + ws) <==> w <= text && Stands(item, w) && Spelled(items, text[|w|..], ws)
  {
    var all, parts := [item] + items, [w] + ws;
    assert parts[1..] == ws;
    assert Joined(parts) == w + Joined(ws);
    if w <= text {
      assert text == w + text[|w|..];
      assert w + Joined(ws) <= text <==> Joined(ws) <= text[|w|..] by {
        if w + Joined(ws) <= text {
          assert text[..|w| + |Joined(ws)|] == w + Joined(ws);
          assert text[|w|..][..|Joined(ws)|] == Joined(ws);
        }
      }
    }
    if Spelled(all, text, parts) {
      assert w + Joined(ws) <= text && w == text[..|w|];
      forall i | 0 <= i < |items| ensures Stands(items[i], ws[i]) {
        assert Stands(all[i + 1], parts[i + 1]);
      }
      assert Stands(all[0], parts[0]);
    }
    if w <= text && Stands(item, w) && Spelled(items, text[|w|..], ws) {
      forall i | 0 <= i < |all| ensures Stands(all[i], parts[i]) {
        if i > 0 {
          assert Stands(items[i - 1], ws[i - 1]);
        }
      }
    }
  }

  /** The item stands for the first n characters, and the rest of the text begins as the others say. */
  ghost predicate SplitsAt(item: Item, items: seq<Item>, text: string, n: nat)
  {
    n <= |text| && Stands(item, text[..n]) && Begins(items, text[n..])
  }

  lemma BeginsCons(item: Item, items: seq<Item>, text: string)
    requires !item.End?
    ensures Begins([item] + items, text) <==> exists n :: SplitsAt(item, items, text, n)
  {
    if Begins([item] + items, text) {
      var ws :| Spelled([item] + items, text, ws);
      assert ws == [ws[0]] + ws[1..];
      SpelledCons(item, items, text, ws[0], ws[1..]);
      var n := |ws[0]|;
      assert text[..n] == ws[0] && Spelled(items, text[n..], ws[1..]);
      assert SplitsAt(item, items, text, n);
    }
    if n: nat :| SplitsAt(item, items, text, n) {
      var ws :| Spelled(items, text[n..], ws);
      SpelledCons(item, items, text, text[..n], ws);
      assert Spelled([item] + items, text, [text[..n]] + ws);
    }
  }

  /** matchhere() decides whether text begins as the pattern says. */
  lemma {:induction false} HereMeans(re: string, text: string)
    ensures Here(re, text) <==> Begins(Items(re), text)
    decreases |re|, 0, |text|
  {
    if re == [] {
      assert Spelled([], text, []);
    } else if |re| > 1 && re[1] == '*' {
      StarMeans(re[0], re[2..], text);
    } else if re == "$" {
      EndMeans(text);
    } else {
      BeginsCons(One(re[0]), Items(re[1..]), text);
      if text != [] {
        HereMeans(re[1..], text[1..]);
        assert SplitsAt(One(re[0]), Items(re[1..]), text, 1) <==> Fits(re[0], text[0]) && Here(re[1..], text[1..]);
      }
    }
  }

  lemma EndMeans(text: string)
    ensures Begins([End], text) <==> text == []
  {
    if text == [] {
      assert Joined([[]]) == [];
      assert Spelled([End], text, [[]]);
    }
    if Begins([End], text) {
      var ws :| Spelled([End], text, ws);
      assert Stands([End][0], ws[0]);
      assert Joined(ws) == ws[0] + Joined(ws[1..]);
    }
  }

  lemma {:induction false} StarMeans(c: char, re: string, text: string)
    ensures Star(c, re, text) <==> Begins([Many(c)] + Items(re), text)
    decreases |re|, 1, |text|
  {
    var items := Items(re);
    BeginsCons(Many(c), items, text);
    HereMeans(re, text);
    assert text[..0] == [] && text[0..] == text;
    assert SplitsAt(Many(c), items, text, 0) <==> Here(re, text);
    if text != [] {
      StarMeans(c, re, text[1..]);
      BeginsCons(Many(c), items, text[1..]);
      StarShift(c, items, text);
    } else {
      assert forall n :: SplitsAt(Many(c), items, text, n) ==> n == 0;
    }
  }

  lemma ManyCons(c: char, x: char, w: string)
    ensures Stands(Many(c), [x] + w) <==> Fits(c, x) && Stands(Many(c), w)
  {
    var v := [x] + w;
    if Stands(Many(c), v) {
      assert v[0] == x && forall i :: 0 <= i < |w| ==> w[i] == v[1 + i];
    }
  }

  lemma ShiftOne(c: char, items: seq<Item>, text: string, n: nat)
    requires n < |text|
    ensures SplitsAt(Many(c), items, text, n + 1) <==> Fits(c, text[0]) && SplitsAt(Many(c), items, text[1..], n)
  {
    assert text[..n + 1] == [text[0]] + text[1..][..n];
    assert text[n + 1..] == text[1..][n..];
    ManyCons(c, text[0], text[1..][..n]);
  }

  /** One more character for a star. */
  lemma StarShift(c: char, items: seq<Item>, text: string)
    requires text != []
    ensures (exists n :: SplitsAt(Many(c), items, text, n)) <==>
            SplitsAt(Many(c), items, text, 0)
              || (Fits(c, text[0]) && exists n :: SplitsAt(Many(c), items, text[1..], n))
  {
    if n: nat :| SplitsAt(Many(c), items, text, n) && n > 0 {
      ShiftOne(c, items, text, n - 1);
    }
    if n: nat :| SplitsAt(Many(c), items, text[1..], n) {
      ShiftOne(c, items, text, n);
    }
  }
}
