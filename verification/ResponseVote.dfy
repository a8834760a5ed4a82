/** The vote over the answers of all servers that were sent the same request. */
module ResponseVote {
  import opened Options

  datatype Response = Value(text: string) | JsonError(text: string) | TransportError(text: string)

  /** Results beat errors inside the json, which beat failures to get an answer at all. */
  function Rank(r: Response): nat {
    match r case Value(_) => 0 case JsonError(_) => 1 case TransportError(_) => 2
  }

  /** The debug text that answers are counted by. */
  type Render = Response -> string

  /** Different answers may have the same debug text, but it always tells their classes apart. */
  ghost predicate TellsClass(render: Render) {
    forall a, b {:trigger Alike(render, a, b)} | Alike(render, a, b) :: Rank(a) == Rank(b)
  }

  ghost predicate Alike(render: Render, a: Response, b: Response) { render(a) == render(b) }

  function Texts(render: Render, rs: seq<Response>): (ts: seq<string>)
    ensures |ts| == |rs|
  {
    seq(|rs|, i requires 0 <= i < |rs| => render(rs[i]))
  }

  lemma {:induction false} TextsNext(render: Render, rs: seq<Response>, r: Response)
    ensures Texts(render, rs + [r]) == Texts(render, rs) + [render(r)]
    ensures multiset(Texts(render, rs + [r])) == multiset(Texts(render, rs)) + multiset{render(r)}
  {
  }

  /** The ordering of rust strings. */
  predicate TextLess(a: string, b: string) {
    b != [] && (a == [] || a[0] < b[0] || (a[0] == b[0] && TextLess(a[1..], b[1..])))
  }

  lemma {:induction false} TextLessTotal(a: string, b: string)
    ensures a == b || TextLess(a, b) || TextLess(b, a)
    ensures !(TextLess(a, b) && TextLess(b, a)) && !TextLess(a, a)
  {
    if a != [] && b != [] && a[0] == b[0] {
      TextLessTotal(a[1..], b[1..]);
      assert a == [a[0]] + a[1..] && b == [b[0]] + b[1..];
    }
    if a != [] {
      TextLessTotal(a[1..], a[1..]);
    }
  }

  lemma {:induction false} TextLessTransitive(a: string, b: string, c: string)
    requires TextLess(a, b) && TextLess(b, c)
    ensures TextLess(a, c)
  {
    if a != [] && a[0] == b[0] == c[0] {
      TextLessTransitive(a[1..], b[1..], c[1..]);
    }
  }

  /** `a` and `b` agree before `i`, where `a` ends or has the smaller character. */
  ghost predicate SmallerAt(a: string, b: string, i: nat) {
    i < |b| && i <= |a| && a[..i] == b[..i] && (i == |a| || a[i] < b[i])
  }

  /** The order is decided where two texts first differ; a beginning comes before its continuations. */
  lemma {:induction false} TextLessIff(a: string, b: string)
    ensures TextLess(a, b) <==> exists i: nat :: SmallerAt(a, b, i)
  {
    if b != [] && (a == [] || a[0] < b[0]) {
      assert SmallerAt(a, b, 0);
    } else if a != [] && b != [] && a[0] == b[0] {
      TextLessIff(a[1..], b[1..]);
      if i: nat :| SmallerAt(a[1..], b[1..], i) {
        assert a[..i + 1] == [a[0]] + a[1..][..i] && b[..i + 1] == [b[0]] + b[1..][..i];
        assert SmallerAt(a, b, i + 1);
      }
      if i: nat :| SmallerAt(a, b, i) {
        assert i > 0 && a[1..][..i - 1] == a[..i][1..] && b[1..][..i - 1] == b[..i][1..];
        assert SmallerAt(a[1..], b[1..], i - 1);
      }
    }
  }

  /** `a` comes before `b` in the tally: more votes, or as many and a smaller text. */
  predicate Before(votes: multiset<string>, a: string, b: string) {
    votes[a] > votes[b] || (votes[a] == votes[b] && TextLess(a, b))
  }

  /** The answer that must be returned, up to its debug text: the most frequent one of the best rank. */
  ghost predicate Wins(render: Render, rs: seq<Response>, w: Response) {
    && w in rs
    && (forall r | r in rs :: Rank(w) <= Rank(r))
    && (forall r | r in rs && render(r) != render(w) && Rank(r) == Rank(w) ::
          Before(multiset(Texts(render, rs)), render(w), render(r)))
  }

  /** No answer with the same text came in earlier. */
  ghost predicate CameFirst(render: Render, rs: seq<Response>, w: Response) {
    exists i :: 0 <= i < |rs| && rs[i] == w && forall j | 0 <= j < i :: render(rs[j]) != render(w)
  }

  /** The votes alone determine the text of the winner: whatever the order of arrival, it is the same. */
  lemma {:induction false} WinnerIsUnique(render: Render, rs: seq<Response>, v: Response, qs: seq<Response>,
                                          w: Response)
    requires multiset(rs) == multiset(qs) && Wins(render, rs, v) && Wins(render, qs, w)
    ensures render(v) == render(w)
  {
    SameAnswersSameTexts(render, rs, qs);
    assert v in multiset(qs) && w in multiset(rs);
    TextLessTotal(render(v), render(w));
  }

  /** What winning means in plain terms: a result if there is any, else a json error if there is any; and no answer of
      the same class has a text that came in more often, or as often with a text that is smaller. */
  lemma {:induction false} WinnerMeans(render: Render, rs: seq<Response>, w: Response, r: Response)
    requires Wins(render, rs, w) && r in rs
    ensures r.Value? ==> w.Value?
    ensures r.JsonError? ==> !w.TransportError?
    ensures (r.Value? && w.Value?) || (r.JsonError? && w.JsonError?) || (r.TransportError? && w.TransportError?) ==>
              var votes := multiset(Texts(render, rs));
              && votes[render(w)] >= votes[render(r)]
              && (votes[render(w)] == votes[render(r)] && render(r) != render(w) ==>
                    exists i: nat :: SmallerAt(render(w), render(r), i))
  {
    TextLessIff(render(w), render(r));
    assert Rank(w) <= Rank(r);
  }

  lemma {:induction false} TakenOut(render: Render, qs: seq<Response>, i: nat, rest: seq<Response>)
    requires i < |qs| && rest == qs[..i] + qs[i + 1..]
    ensures multiset(rest) == multiset(qs) - multiset{qs[i]}
    ensures multiset(Texts(render, qs)) == multiset(Texts(render, rest)) + multiset{render(qs[i])}
  {
    assert qs == qs[..i] + [qs[i]] + qs[i + 1..];
    var a, b := Texts(render, qs[..i]), Texts(render, qs[i + 1..]);
    assert Texts(render, qs) == a + [render(qs[i])] + b;
    assert Texts(render, rest) == a + b;
  }

  lemma {:induction false} SameAnswersSameTexts(render: Render, rs: seq<Response>, qs: seq<Response>)
    requires multiset(rs) == multiset(qs)
    ensures multiset(Texts(render, rs)) == multiset(Texts(render, qs))
  {
    if rs == [] {
      assert |qs| == |multiset(qs)| == 0;
    } else {
      assert rs[0] in multiset(qs);
      var i :| 0 <= i < |qs| && qs[i] == rs[0];
      var rs', qs' := rs[..0] + rs[1..], qs[..i] + qs[i + 1..];
      TakenOut(render, rs, 0, rs');
      TakenOut(render, qs, i, qs');
      SameAnswersSameTexts(render, rs', qs');
    }
  }

  /** Under every text so far the first answer that had it is kept. */
  ghost predicate Kept(render: Render, rs: seq<Response>, byKey: map<string, Response>) {
    && (forall k | k in byKey :: render(byKey[k]) == k && CameFirst(render, rs, byKey[k]))
    && (forall r {:trigger render(r)} | r in rs :: render(r) in byKey)
  }

  /** Every text is counted as often as it came in. */
  ghost predicate Counted(render: Render, rs: seq<Response>, counts: map<string, nat>) {
    var votes := multiset(Texts(render, rs));
    (forall k | k in votes :: k in counts) && (forall k | k in counts :: counts[k] == votes[k])
  }

  ghost predicate Tallied(render: Render, rs: seq<Response>, byKey: map<string, Response>, counts: map<string, nat>) {
    byKey.Keys == counts.Keys && Kept(render, rs, byKey) && Counted(render, rs, counts)
  }

  ghost predicate Flags(rs: seq<Response>, anyResult: bool, anyOk: bool) {
    && (anyResult <==> exists r :: r in rs && r.Value?)
    && (anyOk <==> exists r :: r in rs && !r.TransportError?)
  }

  lemma {:induction false} StillFirst(render: Render, rs: seq<Response>, r: Response, w: Response)
    requires CameFirst(render, rs, w)
    ensures CameFirst(render, rs + [r], w)
  {
    var i :| 0 <= i < |rs| && rs[i] == w && forall j | 0 <= j < i :: render(rs[j]) != render(w);
    assert (rs + [r])[i] == w;
  }

  lemma {:induction false} NewComesFirst(render: Render, rs: seq<Response>, r: Response)
    requires forall x | x in rs :: render(x) != render(r)
    ensures CameFirst(render, rs + [r], r)
  {
    assert (rs + [r])[|rs|] == r;
    assert forall j | 0 <= j < |rs| :: rs[j] in rs;
  }

  lemma {:induction false} KeptNext(render: Render, rs: seq<Response>, r: Response, byKey: map<string, Response>)
    requires Kept(render, rs, byKey)
    ensures Kept(render, rs + [r], if render(r) in byKey then byKey else byKey[render(r) := r])
  {
    if render(r) !in byKey {
      NewComesFirst(render, rs, r);
    }
    forall k | k in byKey ensures CameFirst(render, rs + [r], byKey[k]) {
      StillFirst(render, rs, r, byKey[k]);
    }
  }

  lemma {:induction false} CountedNext(render: Render, rs: seq<Response>, r: Response, counts: map<string, nat>)
    requires Counted(render, rs, counts)
    ensures var k := render(r);
      Counted(render, rs + [r], counts[k := (if k in counts then counts[k] else 0) + 1])
  {
    TextsNext(render, rs, r);
  }

  lemma {:induction false} FlagsNext(render: Render, rs: seq<Response>, r: Response, anyResult: bool, anyOk: bool,
                                     isNew: bool)
    requires Flags(rs, anyResult, anyOk) && TellsClass(render)
    requires !isNew ==> exists x :: x in rs && render(x) == render(r)
    ensures Flags(rs + [r], anyResult || r.Value?, anyOk || (isNew && !r.TransportError?))
  {
    assert (rs + [r])[|rs|] == r;
    assert forall x :: x in rs + [r] <==> x in rs || x == r;
    if !isNew {
      var x :| x in rs && render(x) == render(r);
      assert Alike(render, x, r);
    }
  }

  /** Counts one more answer and says whether its text was new. */
  method CountOne(render: Render, ghost rs: seq<Response>, response: Response, byKey0: map<string, Response>,
                  counts0: map<string, nat>)
    returns (byKey: map<string, Response>, counts: map<string, nat>, isNew: bool)
    requires Tallied(render, rs, byKey0, counts0)
    ensures Tallied(render, rs + [response], byKey, counts)
    ensures !isNew ==> exists x :: x in rs && render(x) == render(response)
  {
    KeptNext(render, rs, response, byKey0);
    CountedNext(render, rs, response, counts0);
    var key := render(response);
    isNew := key !in byKey0;
    byKey := byKey0;
    if isNew {
      byKey := byKey[key := response];
    } else {
      assert render(byKey0[key]) == key && CameFirst(render, rs, byKey0[key]);
    }
    counts := counts0[key := (if isNew then 0 else counts0[key]) + 1];
  }

  /** The state of the loop below after the answers `rs`. */
  ghost predicate Seen(render: Render, rs: seq<Response>, byKey: map<string, Response>, counts: map<string, nat>,
                       anyResult: bool, anyOk: bool)
  {
    Tallied(render, rs, byKey, counts) && Flags(rs, anyResult, anyOk)
  }

  /** One turn of the loop below, after which `rs'` is counted; only a text not seen before is looked into. */
  method SeeOne(render: Render, ghost rs: seq<Response>, response: Response, ghost rs': seq<Response>,
                byKey0: map<string, Response>, counts0: map<string, nat>, anyResult0: bool, anyOk0: bool)
    returns (byKey: map<string, Response>, counts: map<string, nat>, anyResult: bool, anyOk: bool)
    requires TellsClass(render) && rs' == rs + [response] && Seen(render, rs, byKey0, counts0, anyResult0, anyOk0)
    ensures Seen(render, rs', byKey, counts, anyResult, anyOk)
  {
    anyResult, anyOk := anyResult0, anyOk0;
    if response.Value? {
      anyResult := true;
    }
    var isNew;
    byKey, counts, isNew := CountOne(render, rs, response, byKey0, counts0);
    FlagsNext(render, rs, response, anyResult0, anyOk0, isNew);
    if isNew && !response.TransportError? {
      anyOk := true;
    }
  }

  lemma {:induction false} NothingSeen(render: Render)
    ensures Seen(render, [], map[], map[], false, false)
  {
  }

  lemma {:induction false} TakeNext(rs: seq<Response>, i: nat)
    requires i < |rs|
    ensures rs[..i + 1] == rs[..i] + [rs[i]]
  {
  }

  /** Counts the answers by their text. */
  method Tally(render: Render, responses: seq<Response>)
    returns (byKey: map<string, Response>, counts: map<string, nat>, anyResult: bool, anyOk: bool)
    requires TellsClass(render)
    ensures Seen(render, responses, byKey, counts, anyResult, anyOk)
  {
    byKey, counts, anyResult, anyOk := map[], map[], false, false;
    NothingSeen(render);
    ghost var rs: seq<Response> := [];
    var i := 0;
    while i < |responses|
      invariant 0 <= i <= |responses| && rs == responses[..i] && Seen(render, rs, byKey, counts, anyResult, anyOk)
    {
      TakeNext(responses, i);
      ghost var rs' := responses[..i + 1];
      byKey, counts, anyResult, anyOk := SeeOne(render, rs, responses[i], rs', byKey, counts, anyResult, anyOk);
      rs, i := rs', i + 1;
    }
    assert rs == responses;
  }

  predicate KeyBefore(counts: map<string, nat>, a: string, b: string)
    requires a in counts && b in counts
  {
    counts[a] > counts[b] || (counts[a] == counts[b] && TextLess(a, b))
  }

  /** The key with the most votes among `keys`, ties broken by the smallest key. */
  method MostCommonKey(counts: map<string, nat>, keys: set<string>) returns (best: string)
    requires keys != {} && keys <= counts.Keys
    ensures best in keys && forall k | k in keys && k != best :: KeyBefore(counts, best, k)
  {
    best :| best in keys;
    var todo := keys - {best};
    ghost var seen := {best};
    while todo != {}
      invariant todo + seen == keys && best in seen
      invariant forall k | k in seen && k != best :: KeyBefore(counts, best, k)
      decreases todo
    {
      var k :| k in todo;
      TextLessTotal(best, k);
      if KeyBefore(counts, k, best) {
        forall x | x in seen && x != best ensures KeyBefore(counts, k, x) {
          KeyBeforeTransitive(counts, k, best, x);
        }
        best := k;
      }
      todo, seen := todo - {k}, seen + {k};
    }
  }

  lemma {:induction false} KeyBeforeTransitive(counts: map<string, nat>, a: string, b: string, c: string)
    requires a in counts && b in counts && c in counts
    requires KeyBefore(counts, a, b) && KeyBefore(counts, b, c)
    ensures KeyBefore(counts, a, c)
  {
    if counts[a] == counts[b] == counts[c] {
      TextLessTransitive(a, b, c);
    }
  }

  predicate Overruled(r: Response, anyResult: bool, anyOk: bool) {
    (r.JsonError? && anyResult) || (r.TransportError? && anyOk)
  }

  /** Goes through the answers from the most common one on and takes the first that no better class overrules. `None`
      stands for falling out of the loop. */
  method MostCommonResponse(render: Render, responses: seq<Response>) returns (answer: Option<Response>)
    requires TellsClass(render)
    ensures answer.None? <==> responses == []
    ensures answer.Some? ==> Wins(render, responses, answer.value) && CameFirst(render, responses, answer.value)
  {
    var byKey, counts, anyResult, anyOk := Tally(render, responses);
    var keys := counts.Keys;
    while keys != {}
      invariant keys <= counts.Keys
      invariant forall k | k in counts && k !in keys :: Overruled(byKey[k], anyResult, anyOk)
    {
      var key := MostCommonKey(counts, keys);
      var mostCommon := byKey[key];
      if !Overruled(mostCommon, anyResult, anyOk) {
        FirstNotOverruledWins(render, responses, byKey, counts, anyResult, anyOk, keys, key);
        return Some(mostCommon);
      }
      keys := keys - {key};
    }
    SomeNotOverruled(render, responses, byKey, counts, anyResult, anyOk);
    answer := None;
  }

  /** The answer kept under a text has the class of every answer with that text. */
  lemma {:induction false} SameClass(render: Render, rs: seq<Response>, byKey: map<string, Response>,
                                     counts: map<string, nat>, r: Response)
    requires Tallied(render, rs, byKey, counts) && TellsClass(render) && r in rs
    ensures render(r) in byKey && Rank(byKey[render(r)]) == Rank(r)
  {
    assert Alike(render, byKey[render(r)], r);
  }

  lemma {:induction false} SomeNotOverruled(render: Render, rs: seq<Response>, byKey: map<string, Response>,
                                            counts: map<string, nat>, anyResult: bool, anyOk: bool)
    requires Tallied(render, rs, byKey, counts) && Flags(rs, anyResult, anyOk) && TellsClass(render)
    ensures rs != [] ==> exists k :: k in counts && !Overruled(byKey[k], anyResult, anyOk)
  {
    if rs != [] {
      var r := rs[0];
      if anyResult {
        r :| r in rs && r.Value?;
      } else if anyOk {
        r :| r in rs && !r.TransportError?;
      }
      SameClass(render, rs, byKey, counts, r);
      assert render(r) in counts && !Overruled(byKey[render(r)], anyResult, anyOk);
    }
  }

  lemma {:induction false} FirstNotOverruledWins(render: Render, rs: seq<Response>, byKey: map<string, Response>,
                                                 counts: map<string, nat>, anyResult: bool, anyOk: bool,
                                                 keys: set<string>, key: string)
    requires Tallied(render, rs, byKey, counts) && Flags(rs, anyResult, anyOk) && TellsClass(render)
    requires keys <= counts.Keys && key in keys
    requires forall k | k in counts && k !in keys :: Overruled(byKey[k], anyResult, anyOk)
    requires forall k | k in keys && k != key :: KeyBefore(counts, key, k)
    requires !Overruled(byKey[key], anyResult, anyOk)
    ensures Wins(render, rs, byKey[key]) && CameFirst(render, rs, byKey[key])
  {
    var w := byKey[key];
    forall r | r in rs && render(r) != key && Rank(r) == Rank(w)
      ensures Before(multiset(Texts(render, rs)), key, render(r))
    {
      SameClass(render, rs, byKey, counts, r);
      assert !Overruled(byKey[render(r)], anyResult, anyOk) && KeyBefore(counts, key, render(r));
    }
  }
}
