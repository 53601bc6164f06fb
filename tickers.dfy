/** The ticker list of a request: `tickers_string.replace(" ", "").split(",")`
    (app.py:27 and app.py:38). */
module Tickers {

  /** `s.replace(" ", "")`: s with every space dropped, the other characters
      kept in order. */
  function RemoveSpaces(s: string): (r: string)
    ensures ' ' !in r
    ensures forall c :: c != ' ' ==> multiset(r)[c] == multiset(s)[c]
    ensures |r| <= |s|
  {
    if |s| == 0 then ""
    else
      assert s == [s[0]] + s[1..];
      (if s[0] == ' ' then "" else [s[0]]) + RemoveSpaces(s[1..])
  }

  /** A string without spaces is left as it is, so dropping spaces twice
      drops nothing more. */
  lemma {:induction false} RemoveSpacesIdentity(s: string)
    requires ' ' !in s
    ensures RemoveSpaces(s) == s
  {
    if |s| > 0 {
      assert s[0] != ' ';
      assert ' ' !in s[1..];
      RemoveSpacesIdentity(s[1..]);
    }
  }

  /** Dropping spaces works piece by piece, so the kept characters stay in
      their order. */
  lemma {:induction false} RemoveSpacesAppend(a: string, b: string)
    ensures RemoveSpaces(a + b) == RemoveSpaces(a) + RemoveSpaces(b)
  {
    if |a| == 0 {
      assert a + b == b;
    } else {
      assert (a + b)[0] == a[0];
      assert (a + b)[1..] == a[1..] + b;
      RemoveSpacesAppend(a[1..], b);
    }
  }

  /** A space is dropped, any other character is kept. */
  lemma RemoveSpacesChar(c: char)
    ensures RemoveSpaces([c]) == if c == ' ' then "" else [c]
  {
    assert [c][1..] == "";
  }

  lemma RemoveSpacesIdempotent(s: string)
    ensures RemoveSpaces(RemoveSpaces(s)) == RemoveSpaces(s)
  {
    RemoveSpacesIdentity(RemoveSpaces(s));
  }

  /** `s.split(",")`: the pieces between the commas, so the empty string
      splits into one empty piece. */
  function Split(s: string): (r: seq<string>)
    ensures |r| >= 1
    ensures forall i :: 0 <= i < |r| ==> ',' !in r[i]
  {
    if |s| == 0 then [""]
    else
      var rest := Split(s[1..]);
      if s[0] == ',' then [""] + rest
      else [[s[0]] + rest[0]] + rest[1..]
  }

  /** There is one more piece than there are commas. */
  lemma {:induction false} SplitCount(s: string)
    ensures |Split(s)| == multiset(s)[','] + 1
  {
    if |s| > 0 {
      SplitCount(s[1..]);
      assert s == [s[0]] + s[1..];
      assert multiset(s) == multiset{s[0]} + multiset(s[1..]);
    }
  }

  /** `",".join(pieces)`. */
  function Join(pieces: seq<string>): string
    requires |pieces| >= 1
  {
    if |pieces| == 1 then pieces[0]
    else pieces[0] + "," + Join(pieces[1..])
  }

  lemma {:induction false} JoinHead(c: char, pieces: seq<string>)
    requires |pieces| >= 1
    ensures Join([[c] + pieces[0]] + pieces[1..]) == [c] + Join(pieces)
  {
    var p := [[c] + pieces[0]] + pieces[1..];
    if |pieces| > 1 {
      assert p[1..] == pieces[1..];
    }
  }

  /** Joining the pieces with commas gives back the string. */
  lemma {:induction false} JoinSplit(s: string)
    ensures Join(Split(s)) == s
  {
    if |s| > 0 {
      var rest := Split(s[1..]);
      JoinSplit(s[1..]);
      assert Join(rest) == s[1..];
      assert s == [s[0]] + s[1..];
      if s[0] == ',' {
        var r := [""] + rest;
        assert Split(s) == r;
        assert r[1..] == rest;
        assert Join(r) == "" + "," + Join(rest);
      } else {
        assert Split(s) == [[s[0]] + rest[0]] + rest[1..];
        JoinHead(s[0], rest);
      }
    }
  }

  /** Splitting a comma-joined list of comma-free pieces gives back the list. */
  lemma {:induction false} SplitJoin(pieces: seq<string>)
    requires |pieces| >= 1
    requires forall i :: 0 <= i < |pieces| ==> ',' !in pieces[i]
    ensures Split(Join(pieces)) == pieces
  {
    if |pieces| == 1 {
      SplitPiece(pieces[0]);
    } else {
      SplitJoin(pieces[1..]);
      SplitAfterPiece(pieces[0], Join(pieces[1..]));
      assert pieces == [pieces[0]] + pieces[1..];
    }
  }

  /** A comma-free string is one piece. */
  lemma {:induction false} SplitPiece(p: string)
    requires ',' !in p
    ensures Split(p) == [p]
  {
    if |p| > 0 {
      assert ',' !in p[1..];
      SplitPiece(p[1..]);
      assert p == [p[0]] + p[1..];
    }
  }

  /** A comma-free piece followed by a comma and a tail t splits into the
      piece followed by the pieces of t. */
  lemma {:induction false} SplitAfterPiece(p: string, t: string)
    requires ',' !in p
    ensures Split(p + "," + t) == [p] + Split(t)
  {
    var s := p + "," + t;
    if |p| == 0 {
      assert s == [','] + t;
      assert s[1..] == t;
      assert Split(s) == [""] + Split(s[1..]);
    } else {
      assert ',' !in p[1..];
      SplitAfterPiece(p[1..], t);
      assert s[1..] == p[1..] + "," + t;
      assert s[0] == p[0] && s[0] != ',';
      var rest := Split(s[1..]);
      assert rest == [p[1..]] + Split(t);
      assert rest[0] == p[1..] && rest[1..] == Split(t);
      assert Split(s) == [[s[0]] + rest[0]] + rest[1..];
      assert [s[0]] + rest[0] == p;
    }
  }

  /** `tickers_string.replace(" ", "").split(",")`. */
  function TickerList(tickers: string): (r: seq<string>)
    ensures |r| == multiset(tickers)[','] + 1
    ensures forall i :: 0 <= i < |r| ==> ',' !in r[i] && ' ' !in r[i]
    ensures Join(r) == RemoveSpaces(tickers)
  {
    var compact := RemoveSpaces(tickers);
    var r := Split(compact);
    JoinSplit(compact);
    SplitCount(compact);
    forall i | 0 <= i < |r|
      ensures ' ' !in r[i]
    {
      PieceOfJoin(r, i);
    }
    r
  }

  /** Every piece's characters occur in the joined string. */
  lemma {:induction false} PieceOfJoin(pieces: seq<string>, i: nat)
    requires i < |pieces|
    ensures forall c :: c in pieces[i] ==> c in Join(pieces)
  {
    if i > 0 {
      PieceOfJoin(pieces[1..], i - 1);
    }
  }
}
