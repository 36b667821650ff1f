/**
  The wizard's space tokenizer `str2list`: the answer is cut at every single
  space character, exactly like Python's `s.split(' ')`, and every empty piece
  is then removed. Only `' '` separates tokens; a tab stays inside a token.
 */
module Tokens {

  /** True when the string contains no space character. */
  predicate Spaceless(s: string) {
    ' ' !in s
  }

  /** True when every token is non-empty and has no space in it, i.e. the
      shape `str2list` always produces. */
  predicate WellFormed(ts: seq<string>) {
    forall i :: 0 <= i < |ts| ==> ts[i] != "" && Spaceless(ts[i])
  }

  /** Python's `s.split(' ')`: the pieces between consecutive spaces, left to
      right, empty pieces included. There is always at least one piece. */
  function Pieces(s: string): (ps: seq<string>)
    ensures |ps| >= 1
    ensures forall i :: 0 <= i < |ps| ==> Spaceless(ps[i])
    decreases |s|
  {
    if |s| == 0 then [""]
    else if s[0] == ' ' then [""] + Pieces(s[1..])
    else
      var rest := Pieces(s[1..]);
      [[s[0]] + rest[0]] + rest[1..]
  }

  /** Python's `' '.join(ts)`. */
  function Join(ts: seq<string>): string
  {
    if |ts| == 0 then ""
    else if |ts| == 1 then ts[0]
    else ts[0] + " " + Join(ts[1..])
  }

  /** The list with every empty string dropped, the others kept in order. */
  function RemoveEmpty(ts: seq<string>): (r: seq<string>)
    ensures forall i :: 0 <= i < |r| ==> r[i] != ""
    ensures forall i :: 0 <= i < |r| ==> r[i] in ts
  {
    if |ts| == 0 then []
    else if ts[0] == "" then
      assert ts == [ts[0]] + ts[1..];
      RemoveEmpty(ts[1..])
    else
      assert ts == [ts[0]] + ts[1..];
      [ts[0]] + RemoveEmpty(ts[1..])
  }

  /** `str2list`: the space-separated tokens of an answer, in order. */
  function Str2List(s: string): (tokens: seq<string>)
    ensures WellFormed(tokens)
  {
    var ps := Pieces(s);
    var tokens := RemoveEmpty(ps);
    tokens
  }

  /** Index of the first empty string; the caller knows there is one. */
  function FirstEmpty(ts: seq<string>): (i: nat)
    requires "" in ts
    ensures i < |ts| && ts[i] == ""
    ensures forall j :: 0 <= j < i ==> ts[j] != ""
  {
    if ts[0] == "" then 0 else 1 + FirstEmpty(ts[1..])
  }

  /** The loop of `str2list` as written: split, then remove the first empty
      piece while any is left. It computes the same list as `Str2List`. */
  method Str2ListLoop(s: string) returns (tokens: seq<string>)
    ensures tokens == Str2List(s)
  {
    tokens := Pieces(s);
    while "" in tokens
      invariant RemoveEmpty(tokens) == Str2List(s)
      decreases |tokens|
    {
      var i := FirstEmpty(tokens);
      RemoveEmptyDropsEmpty(tokens, i);
      tokens := tokens[..i] + tokens[i + 1..];
    }
    RemoveEmptyKeeps(tokens);
  }

  /** Removing empty strings distributes over concatenation, so the order of
      the kept strings is the order of the input. */
  lemma {:induction false} RemoveEmptyConcat(a: seq<string>, b: seq<string>)
    ensures RemoveEmpty(a + b) == RemoveEmpty(a) + RemoveEmpty(b)
    decreases |a|
  {
    if |a| == 0 {
      assert a + b == b;
    } else {
      assert (a + b)[1..] == a[1..] + b;
      RemoveEmptyConcat(a[1..], b);
    }
  }

  /** `RemoveEmpty` keeps every non-empty string as often as it occurs and
      drops every empty one. */
  lemma {:induction false} RemoveEmptyCounts(ts: seq<string>)
    ensures multiset(RemoveEmpty(ts)) == multiset(ts)["" := 0]
  {
    if |ts| > 0 {
      assert ts == [ts[0]] + ts[1..];
      RemoveEmptyCounts(ts[1..]);
    }
  }

  /** Dropping one empty string does not change what `RemoveEmpty` keeps. */
  lemma {:induction false} RemoveEmptyDropsEmpty(ts: seq<string>, i: nat)
    requires i < |ts| && ts[i] == ""
    ensures RemoveEmpty(ts[..i] + ts[i + 1..]) == RemoveEmpty(ts)
  {
    assert ts == ts[..i] + ([ts[i]] + ts[i + 1..]);
    RemoveEmptyConcat(ts[..i], [ts[i]] + ts[i + 1..]);
    RemoveEmptyConcat(ts[..i], ts[i + 1..]);
  }

  /** A list without empty strings is left unchanged. */
  lemma {:induction false} RemoveEmptyKeeps(ts: seq<string>)
    requires "" !in ts
    ensures RemoveEmpty(ts) == ts
  {
    if |ts| > 0 {
      assert "" !in ts[1..];
      RemoveEmptyKeeps(ts[1..]);
    }
  }

  /** Splitting a string that starts with a spaceless chunk `x`: the chunk is
      glued to the front of the first piece of the rest. */
  lemma {:induction false} PiecesOfSpacelessPrefix(x: string, y: string)
    requires Spaceless(x)
    ensures Pieces(x + y) == [x + Pieces(y)[0]] + Pieces(y)[1..]
    decreases |x|
  {
    if |x| == 0 {
      assert x + y == y;
      assert x + Pieces(y)[0] == Pieces(y)[0];
      assert Pieces(y) == [Pieces(y)[0]] + Pieces(y)[1..];
    } else {
      assert (x + y)[0] == x[0];
      assert (x + y)[1..] == x[1..] + y;
      PiecesOfSpacelessPrefix(x[1..], y);
      assert [x[0]] + (x[1..] + Pieces(y)[0]) == x + Pieces(y)[0];
    }
  }

  /** A leading space ends an empty first piece. */
  lemma {:induction false} PiecesAfterSpace(t: string)
    ensures Pieces(" " + t) == [""] + Pieces(t)
  {
    assert (" " + t)[1..] == t;
  }

  /** `split(' ')` undoes `' '.join` on spaceless pieces. */
  lemma {:induction false} PiecesOfJoin(ts: seq<string>)
    requires |ts| >= 1
    requires forall i :: 0 <= i < |ts| ==> Spaceless(ts[i])
    ensures Pieces(Join(ts)) == ts
    decreases |ts|
  {
    assert ts[0] + "" == ts[0];
    if |ts| == 1 {
      PiecesOfSpacelessPrefix(ts[0], "");
    } else {
      var tail := Join(ts[1..]);
      PiecesOfJoin(ts[1..]);
      PiecesAfterSpace(tail);
      assert Join(ts) == ts[0] + (" " + tail);
      PiecesOfSpacelessPrefix(ts[0], " " + tail);
      assert ts == [ts[0]] + ts[1..];
    }
  }

  /** Gluing a character to the front of the first string glues it to the
      front of the joined string. */
  lemma {:induction false} JoinGlue(c: char, ts: seq<string>)
    requires |ts| >= 1
    ensures Join([[c] + ts[0]] + ts[1..]) == [c] + Join(ts)
  {
    var ps := [[c] + ts[0]] + ts[1..];
    if |ts| > 1 {
      assert ps[1..] == ts[1..];
    }
  }

  /** `' '.join` undoes `split(' ')`: the pieces together with the spaces
      that separated them are exactly the original string. */
  lemma {:induction false} JoinOfPieces(s: string)
    ensures Join(Pieces(s)) == s
    decreases |s|
  {
    if |s| > 0 {
      var rest := Pieces(s[1..]);
      JoinOfPieces(s[1..]);
      if s[0] == ' ' {
        assert ([""] + rest)[1..] == rest;
      } else {
        JoinGlue(s[0], rest);
      }
      assert s == [s[0]] + s[1..];
    }
  }

  /** Re-joining well-formed tokens with single spaces and splitting again
      gives the same tokens back. */
  lemma {:induction false} Str2ListOfJoin(ts: seq<string>)
    requires WellFormed(ts)
    ensures Str2List(Join(ts)) == ts
  {
    if |ts| == 0 {
      assert Pieces("") == [""];
    } else {
      PiecesOfJoin(ts);
      RemoveEmptyKeeps(ts);
    }
  }

  /** `str2list` is idempotent through re-joining with single spaces. */
  lemma {:induction false} Str2ListIdempotent(s: string)
    ensures Str2List(Join(Str2List(s))) == Str2List(s)
  {
    Str2ListOfJoin(Str2List(s));
  }

  /** True when every character of the answer is a space (the empty answer
      included). */
  predicate Blank(s: string) {
    forall i :: 0 <= i < |s| ==> s[i] == ' '
  }

  /** An answer yields no token exactly when it is blank. */
  lemma {:induction false} NoTokensIffBlank(s: string)
    ensures Str2List(s) == [] <==> Blank(s)
    decreases |s|
  {
    if |s| > 0 {
      NoTokensIffBlank(s[1..]);
      var rest := Pieces(s[1..]);
      if s[0] == ' ' {
        RemoveEmptyConcat([""], rest);
        assert Pieces(s) == [""] + rest;
        assert Blank(s) <==> Blank(s[1..]);
      } else {
        var first := [s[0]] + rest[0];
        RemoveEmptyConcat([first], rest[1..]);
        assert Pieces(s) == [first] + rest[1..];
        assert RemoveEmpty([first]) == [first];
      }
    }
  }

  /** Runs of spaces separate tokens like a single space, and a trailing
      space adds no token. */
  lemma Str2ListCollapsesSpaces()
    ensures Str2List("a    b  c ") == ["a", "b", "c"]
  {
    var ps := ["a", "", "", "", "b", "", "c", ""];
    assert Join(ps[6..]) == "c ";
    assert Join(ps[4..]) == "b  c ";
    assert Join(ps) == "a    b  c ";
    PiecesOfJoin(ps);
    assert RemoveEmpty(ps) == ["a", "b", "c"];
  }

  /** A tab does not separate tokens. */
  lemma Str2ListKeepsTabs()
    ensures Str2List("a\tb") == ["a\tb"]
  {
    Str2ListOfJoin(["a\tb"]);
  }
}
