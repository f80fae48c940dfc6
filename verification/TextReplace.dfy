/** `Utils::ReplaceStrInString` and what it means. */
module TextReplace {

  /** `t` occurs in `s` at `pos`. */
  predicate Matches(s: string, t: string, pos: nat) {
    pos <= |s| && t <= s[pos..]
  }

  /** `t` does not occur in `s` between the positions. */
  ghost predicate Absent(s: string, t: string, from: nat, to: nat) {
    forall k :: from <= k < to ==> !Matches(s, t, k)
  }

  /** `at` is what `std::string::find` returns from `pos` on; npos is any position past the text. */
  ghost predicate FoundAt(s: string, t: string, pos: nat, at: nat) {
    pos <= at && Absent(s, t, pos, at) && (at <= |s| ==> Matches(s, t, at))
  }

  /** `std::string::find`, with |s| + 1 for npos. */
  method Find(s: string, t: string, pos: nat) returns (at: nat)
    requires pos <= |s|
    ensures FoundAt(s, t, pos, at) && at <= |s| + 1
  {
    at := pos;
    while at <= |s| && !Matches(s, t, at)
      invariant pos <= at <= |s| + 1 && Absent(s, t, pos, at)
    {
      at := at + 1;
    }
  }

  /** Leftmost, non-overlapping replacement, as a recursion over the text. */
  function Replace(s: string, find: string, with: string): string
    requires find != ""
    decreases |s|
  {
    if s == "" then ""
    else if find <= s then with + Replace(s[|find|..], find, with)
    else [s[0]] + Replace(s[1..], find, with)
  }

  /** The number of occurrences the replacement consumes. */
  function Count(s: string, find: string): nat
    requires find != ""
    decreases |s|
  {
    if s == "" then 0
    else if find <= s then 1 + Count(s[|find|..], find)
    else Count(s[1..], find)
  }

  lemma MatchesSuffix(s: string, t: string, from: nat, k: nat)
    requires from <= |s|
    ensures Matches(s[from..], t, k) <==> Matches(s, t, from + k)
  {
    if from + k <= |s| {
      assert s[from..][k..] == s[from + k..];
    }
  }

  lemma AbsentSuffix(s: string, t: string, from: nat, to: nat)
    requires from <= |s| && from <= to && Absent(s, t, from, to)
    ensures Absent(s[from..], t, 0, to - from)
  {
    forall k | 0 <= k < to - from ensures !Matches(s[from..], t, k) {
      MatchesSuffix(s, t, from, k);
    }
  }

  /** The replacement copies text in which the search string does not occur. */
  lemma {:induction false} ReplaceSkips(s: string, find: string, with: string, at: nat)
    requires find != "" && at <= |s| && Absent(s, find, 0, at)
    ensures Replace(s, find, with) == s[..at] + Replace(s[at..], find, with)
    ensures Count(s, find) == Count(s[at..], find)
    decreases |s|
  {
    assert s[0..] == s;
    if at > 0 {
      assert !Matches(s, find, 0);
      assert Absent(s, find, 1, at);
      AbsentSuffix(s, find, 1, at);
      ReplaceSkips(s[1..], find, with, at - 1);
      assert s[1..][at - 1..] == s[at..];
      assert s[..at] == [s[0]] + s[1..][..at - 1];
    }
  }

  lemma ReplaceAt(s: string, find: string, with: string)
    requires find != "" && Matches(s, find, 0)
    ensures Replace(s, find, with) == with + Replace(s[|find|..], find, with)
    ensures Count(s, find) == 1 + Count(s[|find|..], find)
  {
    assert s[0..] == s;
  }

  /** One pass of the loop, seen from the text that is still to be searched. */
  lemma {:induction false} OnePass(tail: string, find: string, with: string, at: nat)
    requires find != "" && Matches(tail, find, at) && Absent(tail, find, 0, at)
    ensures at + |find| <= |tail|
    ensures Replace(tail, find, with) == tail[..at] + with + Replace(tail[at + |find|..], find, with)
    ensures Count(tail, find) == 1 + Count(tail[at + |find|..], find)
  {
    ReplaceSkips(tail, find, with, at);
    MatchesSuffix(tail, find, at, 0);
    ReplaceAt(tail[at..], find, with);
    assert tail[at..][|find|..] == tail[at + |find|..];
  }

  /** The last test of the loop condition: nothing is left to replace. */
  lemma NoPass(tail: string, find: string, with: string)
    requires find != "" && Absent(tail, find, 0, |tail| + 1)
    ensures Replace(tail, find, with) == tail && Count(tail, find) == 0
  {
    ReplaceSkips(tail, find, with, |tail|);
    assert tail[..|tail|] == tail && tail[|tail|..] == "";
  }

  /** `std::string::replace` of the occurrence at `at`. */
  function Splice(s: string, at: nat, find: string, with: string): string
    requires at + |find| <= |s|
  {
    s[..at] + with + s[at + |find|..]
  }

  /** What a search from the end of `done` says about the text after it. */
  lemma FoundInRest(done: string, rest: string, find: string, k: nat)
    requires FoundAt(done + rest, find, |done|, |done| + k)
    ensures Absent(rest, find, 0, k)
    ensures k <= |rest| ==> Matches(rest, find, k)
  {
    var s := done + rest;
    assert s[|done|..] == rest;
    AbsentSuffix(s, find, |done|, |done| + k);
    MatchesSuffix(s, find, |done|, k);
  }

  lemma SpliceInRest(done: string, rest: string, k: nat, find: string, with: string)
    requires k + |find| <= |rest|
    ensures Splice(done + rest, |done| + k, find, with) == (done + rest[..k] + with) + rest[k + |find|..]
  {
    assert (done + rest)[..|done| + k] == done + rest[..k];
    assert (done + rest)[|done| + k + |find|..] == rest[k + |find|..];
  }

  lemma JoinFour(a: string, b: string, c: string, d: string)
    ensures a + (b + c + d) == (a + b + c) + d
  {
  }

  /** One pass over `done + rest`, where `done` is final and the occurrence is at `k` in `rest`. */
  lemma {:induction false} LoopStep(done: string, rest: string, find: string, with: string, k: nat)
    requires find != "" && FoundAt(done + rest, find, |done|, |done| + k) && k <= |rest|
    ensures k + |find| <= |rest|
    ensures Splice(done + rest, |done| + k, find, with) == (done + rest[..k] + with) + rest[k + |find|..]
    ensures (done + rest[..k] + with) + Replace(rest[k + |find|..], find, with) == done + Replace(rest, find, with)
    ensures 1 + Count(rest[k + |find|..], find) == Count(rest, find)
  {
    FoundInRest(done, rest, find, k);
    OnePass(rest, find, with, k);
    SpliceInRest(done, rest, k, find, with);
    JoinFour(done, rest[..k], with, Replace(rest[k + |find|..], find, with));
  }

  lemma {:induction false} ReplaceLength(s: string, find: string, with: string)
    requires find != ""
    ensures |Replace(s, find, with)| == |s| + Count(s, find) * (|with| - |find|)
    decreases |s|
  {
    if s != "" {
      if find <= s {
        var rest := s[|find|..];
        ReplaceLength(rest, find, with);
        assert (1 + Count(rest, find)) * (|with| - |find|) == (|with| - |find|) + Count(rest, find) * (|with| - |find|);
      } else {
        ReplaceLength(s[1..], find, with);
      }
    }
  }

  /** The loop's state is on the way to the replacement of `base`. */
  ghost predicate Underway(base: string, done: string, rest: string, find: string, with: string, passes: nat)
    requires find != ""
  {
    && done + Replace(rest, find, with) == Replace(base, find, with)
    && passes + Count(rest, find) == Count(base, find)
  }

  lemma Finished(base: string, s: string, done: string, rest: string, find: string, with: string, passes: nat, at: nat)
    requires find != "" && s == done + rest && Underway(base, done, rest, find, with, passes)
    requires FoundAt(s, find, |done|, at) && at > |s|
    ensures s == Replace(base, find, with) && passes == Count(base, find)
  {
    FoundInRest(done, rest, find, at - |done|);
    NoPass(rest, find, with);
  }

  lemma Advanced(base: string, s: string, done: string, rest: string, find: string, with: string, passes: nat, at: nat)
    returns (done': string, rest': string)
    requires find != "" && s == done + rest && Underway(base, done, rest, find, with, passes)
    requires FoundAt(s, find, |done|, at) && at <= |s|
    ensures at + |find| <= |s| && Splice(s, at, find, with) == done' + rest'
    ensures |done'| == at + |with| && |rest'| < |rest|
    ensures Underway(base, done', rest', find, with, passes + 1)
  {
    var k := at - |done|;
    LoopStep(done, rest, find, with, k);
    done', rest' := done + rest[..k] + with, rest[k + |find|..];
  }

  /**
    The in-place loop.  It replaces leftmost non-overlapping occurrences and never looks at
    inserted text again: it makes one pass per occurrence of the original text.
   */
  method ReplaceStrInString(baseString: string, strToFind: string, strToReplaceFoundStr: string)
    returns (result: string, ghost passes: nat)
    requires strToFind != ""
    ensures result == Replace(baseString, strToFind, strToReplaceFoundStr)
    ensures passes == Count(baseString, strToFind)
  {
    var find, with := strToFind, strToReplaceFoundStr;
    result := baseString;
    passes := 0;
    var pos: nat := 0;
    ghost var done, rest := "", baseString;
    assert done + rest == baseString && Underway(baseString, done, rest, find, with, passes);
    var at: nat := Find(result, find, pos);
    while at <= |result|
      invariant result == done + rest && pos == |done| && FoundAt(result, find, pos, at)
      invariant Underway(baseString, done, rest, find, with, passes)
      decreases |rest|
    {
      done, rest := Advanced(baseString, result, done, rest, find, with, passes, at);
      result := Splice(result, at, find, with);
      pos := at + |with|;
      passes := passes + 1;
      at := Find(result, find, pos);
    }
    Finished(baseString, result, done, rest, find, with, passes, at);
  }

  /** With an empty search string every search succeeds where it starts: the loop never ends. */
  lemma EmptySearchNeverEnds(s: string, with: string, pos: nat, at: nat)
    requires pos <= |s| && FoundAt(s, "", pos, at)
    ensures at == pos
    ensures pos + |with| <= |Splice(s, pos, "", with)|
  {
    assert Matches(s, "", pos);
  }

  /**
    The pieces between the consumed occurrences.  The text is the pieces joined by the search
    string, the result the same pieces joined by the replacement.  `PiecesAreCut` says where
    they end and `PiecesAreUnique` that nothing else does, without reference to any recursion over the text.
   */
  function Pieces(s: string, find: string): (ps: seq<string>)
    requires find != ""
    ensures ps != []
    decreases |s|
  {
    if s == "" then [""]
    else if find <= s then [""] + Pieces(s[|find|..], find)
    else
      var rest := Pieces(s[1..], find);
      [[s[0]] + rest[0]] + rest[1..]
  }

  function Join(pieces: seq<string>, glue: string): string
    requires pieces != []
  {
    if |pieces| == 1 then pieces[0] else pieces[0] + glue + Join(pieces[1..], glue)
  }

  lemma JoinFirst(c: char, pieces: seq<string>, glue: string)
    requires pieces != []
    ensures Join([[c] + pieces[0]] + pieces[1..], glue) == [c] + Join(pieces, glue)
  {
    var longer := [[c] + pieces[0]] + pieces[1..];
    assert longer[1..] == pieces[1..];
    if |pieces| > 1 {
      assert [c] + (pieces[0] + glue + Join(pieces[1..], glue)) == [c] + pieces[0] + glue + Join(pieces[1..], glue);
    }
  }

  lemma JoinEmptyFirst(pieces: seq<string>, glue: string)
    requires pieces != []
    ensures Join([""] + pieces, glue) == glue + Join(pieces, glue)
  {
    assert ([""] + pieces)[1..] == pieces;
  }

  lemma {:induction false} JoinPieces(s: string, find: string, with: string)
    requires find != ""
    ensures Join(Pieces(s, find), with) == Replace(s, find, with)
    ensures |Pieces(s, find)| == 1 + Count(s, find)
    decreases |s|
  {
    if s != "" {
      if find <= s {
        JoinPieces(s[|find|..], find, with);
        JoinEmptyFirst(Pieces(s[|find|..], find), with);
      } else {
        JoinPieces(s[1..], find, with);
        JoinFirst(s[0], Pieces(s[1..], find), with);
      }
    }
  }

  lemma {:induction false} ReplaceBySame(s: string, find: string)
    requires find != ""
    ensures Replace(s, find, find) == s
    decreases |s|
  {
    if s != "" {
      if find <= s {
        ReplaceBySame(s[|find|..], find);
        assert find + s[|find|..] == s;
      } else {
        ReplaceBySame(s[1..], find);
        assert [s[0]] + s[1..] == s;
      }
    }
  }

  lemma {:induction false} ReplaceJoinsPieces(s: string, find: string, with: string)
    requires find != ""
    ensures Join(Pieces(s, find), find) == s
    ensures Join(Pieces(s, find), with) == Replace(s, find, with)
    ensures |Replace(s, find, with)| == |s| + (|Pieces(s, find)| - 1) * (|with| - |find|)
  {
    JoinPieces(s, find, find);
    ReplaceBySame(s, find);
    JoinPieces(s, find, with);
    ReplaceLength(s, find, with);
  }

  /** Each piece but the last ends where the search string first occurs, and in the last it does not occur. */
  ghost predicate Cut(pieces: seq<string>, find: string) {
    && pieces != []
    && (forall i :: 0 <= i < |pieces| - 1 ==> EndsAtFirst(pieces[i], find))
    && Absent(pieces[|pieces|-1], find, 0, |pieces[|pieces|-1]| + 1)
  }

  ghost predicate EndsAtFirst(piece: string, find: string) {
    Absent(piece + find, find, 0, |piece|)
  }

  lemma MatchesLater(c: char, s: string, t: string, k: nat)
    ensures Matches([c] + s, t, k + 1) <==> Matches(s, t, k)
  {
    assert ([c] + s)[1..] == s;
    MatchesSuffix([c] + s, t, 1, k);
  }

  lemma AbsentLonger(c: char, s: string, find: string, to: nat)
    requires Absent(s, find, 0, to) && !(find <= [c] + s)
    ensures Absent([c] + s, find, 0, to + 1)
  {
    forall k | 0 <= k < to + 1 ensures !Matches([c] + s, find, k) {
      if k > 0 {
        MatchesLater(c, s, find, k - 1);
      } else {
        assert ([c] + s)[0..] == [c] + s;
      }
    }
  }

  /** Where a prefix is long enough, it alone decides whether the search string stands at the front. */
  lemma PrefixDecides(find: string, front: string, s: string)
    requires front <= s && find <= front
    ensures find <= s
  {
  }

  lemma FirstPieceGrows(c: char, rest: seq<string>, find: string)
    requires find != "" && Cut(rest, find) && !(find <= [c] + Join(rest, find))
    ensures Cut([[c] + rest[0]] + rest[1..], find)
  {
    var grown := [[c] + rest[0]] + rest[1..];
    if |rest| == 1 {
      AbsentLonger(c, rest[0], find, |rest[0]| + 1);
    } else {
      var front, all := [c] + rest[0] + find, [c] + Join(rest, find);
      assert all == front + Join(rest[1..], find);
      assert [c] + (rest[0] + find) == front;
      if find <= front {
        PrefixDecides(find, front, all);
      }
      assert EndsAtFirst(rest[0], find);
      AbsentLonger(c, rest[0] + find, find, |rest[0]|);
      assert EndsAtFirst(grown[0], find);
      forall i | 0 <= i < |grown| - 1 ensures EndsAtFirst(grown[i], find) {
        assert i > 0 ==> grown[i] == rest[i] && EndsAtFirst(rest[i], find);
      }
    }
  }

  lemma {:induction false} PiecesAreCut(s: string, find: string)
    requires find != ""
    ensures Cut(Pieces(s, find), find)
    decreases |s|
  {
    if s != "" {
      if find <= s {
        var rest := Pieces(s[|find|..], find);
        PiecesAreCut(s[|find|..], find);
        var all := [""] + rest;
        assert EndsAtFirst("", find);
        forall i | 0 <= i < |all| - 1 ensures EndsAtFirst(all[i], find) {
          assert i > 0 ==> all[i] == rest[i - 1];
        }
        assert all[|all|-1] == rest[|rest|-1];
      } else {
        PiecesAreCut(s[1..], find);
        JoinPieces(s[1..], find, find);
        ReplaceBySame(s[1..], find);
        assert [s[0]] + s[1..] == s;
        FirstPieceGrows(s[0], Pieces(s[1..], find), find);
      }
    }
  }

  lemma CutTail(pieces: seq<string>, find: string)
    requires Cut(pieces, find) && |pieces| > 1
    ensures Cut(pieces[1..], find)
  {
    var tail := pieces[1..];
    forall i | 0 <= i < |tail| - 1 ensures EndsAtFirst(tail[i], find) {
      assert EndsAtFirst(pieces[i + 1], find);
    }
  }

  /** Where the first piece ends is determined by the text. */
  lemma FirstPieces(p: seq<string>, q: seq<string>, find: string)
    requires find != "" && Cut(p, find) && Cut(q, find) && Join(p, find) == Join(q, find)
    ensures |p| == 1 <==> |q| == 1
    ensures p[0] == q[0]
  {
    FirstPieceEnds(p, find);
    FirstPieceEnds(q, find);
    var s := Join(p, find);
    if |p| > 1 && |q| > 1 {
      assert Absent(s, find, 0, |q[0]|) && Matches(s, find, |p[0]|) && Absent(s, find, 0, |p[0]|);
      assert p[0] == s[..|p[0]|] && q[0] == s[..|q[0]|];
    }
  }

  lemma FirstPieceEnds(p: seq<string>, find: string)
    requires find != "" && Cut(p, find)
    ensures p[0] <= Join(p, find)
    ensures |p| == 1 ==> Join(p, find) == p[0] && Absent(p[0], find, 0, |p[0]| + 1)
    ensures |p| > 1 ==> Matches(Join(p, find), find, |p[0]|) && Absent(Join(p, find), find, 0, |p[0]|)
  {
    if |p| > 1 {
      var s, tail := Join(p, find), Join(p[1..], find);
      assert s == p[0] + find + tail && s[|p[0]|..] == find + tail;
      assert EndsAtFirst(p[0], find);
      forall k | 0 <= k < |p[0]| ensures !Matches(s, find, k) {
        assert !Matches(p[0] + find, find, k);
        assert s[k..] == (p[0] + find)[k..] + tail;
      }
    }
  }

  /** Pieces that are cut like this and make up the text are the only ones. */
  lemma {:induction false} PiecesAreUnique(p: seq<string>, q: seq<string>, find: string)
    requires find != "" && Cut(p, find) && Cut(q, find) && Join(p, find) == Join(q, find)
    ensures p == q
    decreases |p|
  {
    FirstPieces(p, q, find);
    if |p| > 1 {
      var s := Join(p, find);
      assert s[|p[0] + find|..] == Join(p[1..], find) && s[|q[0] + find|..] == Join(q[1..], find);
      CutTail(p, find);
      CutTail(q, find);
      PiecesAreUnique(p[1..], q[1..], find);
      assert p == [p[0]] + p[1..] && q == [q[0]] + q[1..];
    } else {
      assert p == [p[0]] && q == [q[0]];
    }
  }

  /** So any pieces that are cut like this are joined by the replacement when their text is replaced in. */
  lemma {:induction false} ReplaceOfCut(pieces: seq<string>, find: string, with: string)
    requires find != "" && Cut(pieces, find)
    ensures Replace(Join(pieces, find), find, with) == Join(pieces, with)
  {
    var s := Join(pieces, find);
    PiecesAreCut(s, find);
    ReplaceJoinsPieces(s, find, with);
    PiecesAreUnique(pieces, Pieces(s, find), find);
  }
}
