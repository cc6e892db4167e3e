/** The FCM access-token cache: a mutex serialises the calls, each checking the clock before it asks for a new token. */
module TokenCache {
  import opened Prelude

  const MARGIN: int := 60

  /** What the token endpoint answers: a failure, or a token with its lifetime in seconds. */
  datatype Answer = Failed | Granted(token: string, expiresIn: int)

  /** A call entered at second `at`; `answer` is what the endpoint says if it is asked. */
  datatype Call = Call(at: nat, answer: Answer)

  datatype Cache = Cache(token: string, expiry: int)

  const EMPTY := Cache("", 0)

  predicate Hit(c: Cache, at: nat) {
    c.token != "" && at < c.expiry - MARGIN
  }

  function Next(c: Cache, call: Call): Cache {
    if Hit(c, call.at) || call.answer.Failed? then c else Cache(call.answer.token, call.at + call.answer.expiresIn)
  }

  function Served(c: Cache, call: Call): Option<string> {
    if Hit(c, call.at) then Some(c.token) else if call.answer.Failed? then None else Some(call.answer.token)
  }

  ghost function After(calls: seq<Call>): Cache {
    if calls == [] then EMPTY else Next(After(calls[..|calls| - 1]), calls[|calls| - 1])
  }

  class Notifier {
    var cachedToken: string
    var tokenExpiry: int
    ghost var calls: seq<Call>

    ghost predicate Valid()
      reads this
    {
      Cache(cachedToken, tokenExpiry) == After(calls)
    }

    constructor ()
      ensures Valid() && calls == []
    {
      cachedToken, tokenExpiry, calls := "", 0, [];
    }

    method AccessToken(call: Call) returns (token: Option<string>)
      requires Valid()
      modifies this
      ensures Valid() && calls == old(calls) + [call]
      ensures token == Served(After(old(calls)), call)
    {
      assert (calls + [call])[..|calls|] == calls;
      calls := calls + [call];
      if cachedToken != "" && call.at < tokenExpiry - MARGIN {
        return Some(cachedToken);
      }
      match call.answer
      case Failed => token := None;
      case Granted(t, seconds) =>
        cachedToken := t;
        tokenExpiry := call.at + seconds;
        token := Some(cachedToken);
    }
  }

  ghost predicate InOrder(calls: seq<Call>) {
    forall i, j :: 0 <= i < j < |calls| ==> calls[i].at <= calls[j].at
  }

  /** Call i asked the endpoint and was granted a token. */
  ghost predicate Exchanges(calls: seq<Call>, i: nat)
    requires i < |calls|
  {
    !Hit(After(calls[..i]), calls[i].at) && calls[i].answer.Granted?
  }

  /** Successful exchanges begun between lo and hi, both included. */
  ghost function ExchangesWithin(calls: seq<Call>, lo: nat, hi: nat): nat {
    if calls == [] then 0 else
      var n := |calls| - 1;
      ExchangesWithin(calls[..n], lo, hi) + (if Exchanges(calls, n) && lo <= calls[n].at <= hi then 1 else 0)
  }

  /** Call i was granted this token, which at second `at` has more than a minute left. */
  ghost predicate Granting(calls: seq<Call>, i: nat, token: string, at: nat)
    requires i < |calls|
  {
    Exchanges(calls, i) && calls[i].answer.token == token && at + 60 < calls[i].at + calls[i].answer.expiresIn
  }

  /** Every token served without an exchange was granted earlier and has more than a minute left. */
  lemma {:induction false} CachedTokenHasAMinuteLeft(calls: seq<Call>, at: nat)
    requires Hit(After(calls), at)
    ensures exists i: nat :: i < |calls| && Granting(calls, i, After(calls).token, at)
    decreases |calls|
  {
    var n := |calls| - 1;
    var init := calls[..n];
    if Exchanges(calls, n) {
      assert Granting(calls, n, After(calls).token, at);
    } else {
      CachedTokenHasAMinuteLeft(init, at);
      var i: nat :| i < |init| && Granting(init, i, After(init).token, at);
      assert init[..i] == calls[..i];
      assert Granting(calls, i, After(calls).token, at);
    }
  }

  /** Every granted token is non-empty and lasts at least `life` seconds. */
  ghost predicate Generous(calls: seq<Call>, life: int) {
    forall i :: 0 <= i < |calls| && calls[i].answer.Granted? ==>
      calls[i].answer.token != "" && life <= calls[i].answer.expiresIn
  }

  lemma {:induction false} NoneBefore(calls: seq<Call>, lo: nat, hi: nat)
    requires forall i :: 0 <= i < |calls| ==> calls[i].at < lo
    ensures ExchangesWithin(calls, lo, hi) == 0
    decreases |calls|
  {
    if calls != [] {
      NoneBefore(calls[..|calls| - 1], lo, hi);
    }
  }

  lemma QuotientBound(k: nat, d: nat, t: nat)
    requires 0 < d && k * d <= t
    ensures k <= t / d
  {
    var q := t / d;
    assert t < (q + 1) * d;
    assert q + 1 <= k ==> (q + 1) * d <= k * d;
  }

  lemma TimesQuotient(k: nat, d: nat, t: nat)
    requires 0 < d && Times(k, d) <= t
    ensures k <= t / d
  {
    TimesIsProduct(k, d);
    QuotientBound(k, d, t);
  }

  /** Each exchange in the interval keeps the cache fresh for life - 60 seconds more. */
  lemma {:induction false} CacheRunsAhead(calls: seq<Call>, life: int, lo: nat, hi: nat)
    requires InOrder(calls) && Generous(calls, life) && MARGIN < life
    ensures var n := ExchangesWithin(calls, lo, hi);
      n > 0 ==> After(calls).token != "" && lo + Times(n, life - MARGIN) <= After(calls).expiry - MARGIN
    decreases |calls|
  {
    if calls != [] {
      var n := |calls| - 1;
      var init, c := calls[..n], calls[n];
      assert forall i :: 0 <= i < n ==> init[i] == calls[i];
      if c.at < lo {
        NoneBefore(calls, lo, hi);
      } else {
        CacheRunsAhead(init, life, lo, hi);
      }
    }
  }

  /** All exchanges of the interval but one fit into it end to end. */
  lemma {:induction false} ExchangesSpread(calls: seq<Call>, life: int, lo: nat, hi: nat)
    requires InOrder(calls) && Generous(calls, life) && MARGIN < life && lo <= hi
    ensures var n := ExchangesWithin(calls, lo, hi); n > 0 ==> Times(n - 1, life - MARGIN) <= hi - lo
    decreases |calls|
  {
    if calls != [] {
      var init := calls[..|calls| - 1];
      assert forall i :: 0 <= i < |init| ==> init[i] == calls[i];
      ExchangesSpread(init, life, lo, hi);
      CacheRunsAhead(init, life, lo, hi);
    }
  }

  /** If every grant is non-empty and lasts at least `life` > 60 seconds, T seconds see at most 1 + T/(life-60) exchanges. */
  lemma FewExchanges(calls: seq<Call>, life: int, lo: nat, hi: nat)
    requires InOrder(calls) && Generous(calls, life) && 60 < life && lo <= hi
    ensures ExchangesWithin(calls, lo, hi) <= 1 + (hi - lo) / (life - 60)
  {
    ExchangesSpread(calls, life, lo, hi);
    var n := ExchangesWithin(calls, lo, hi);
    if n > 0 {
      TimesQuotient(n - 1, life - MARGIN, hi - lo);
    }
  }

  /** An empty token is granted but never cached: the very next call asks again, however long the grant. */
  lemma EmptyTokenNeverCached(calls: seq<Call>, at: nat, life: int, next: Call)
    requires !Hit(After(calls), at)
    ensures !Hit(After(calls + [Call(at, Granted("", life))]), next.at)
    ensures next.answer.Granted? ==> Exchanges(calls + [Call(at, Granted("", life)), next], |calls| + 1)
  {
    var one := Call(at, Granted("", life));
    assert (calls + [one])[..|calls|] == calls;
    assert (calls + [one, next])[..|calls| + 1] == calls + [one];
  }

  // ----- what a call is answered -----

  /** The first call is answered by the endpoint alone. */
  lemma FirstCall(call: Call)
    ensures Served(After([]), call)
         == match call.answer case Failed => None case Granted(token, _) => Some(token)
  {
  }

  /** After a call that was answered by a grant, the next is served that token just while it has over a minute left. */
  lemma GrantReusedIff(calls: seq<Call>, grant: Call, next: Call)
    requires Exchanges(calls + [grant], |calls|)
    ensures var g := grant.answer;
      Served(After(calls + [grant]), next)
      == if g.token != "" && next.at + 60 < grant.at + g.expiresIn then Some(g.token)
         else match next.answer case Failed => None case Granted(token, _) => Some(token)
  {
    assert (calls + [grant])[..|calls|] == calls;
  }

  /** A call that exchanges nothing leaves the cache to the next one. */
  lemma NothingExchanged(calls: seq<Call>, call: Call)
    requires !Exchanges(calls + [call], |calls|)
    ensures After(calls + [call]) == After(calls)
  {
    assert (calls + [call])[..|calls|] == calls;
  }
}
