/**
 * The guest-token refresh loop of the embedded SDK (superset-embedded-sdk/src/index.ts and
 * guestTokenRefresh.ts). Times are milliseconds. The environment chooses every token, how late the
 * timer fires and how long the fetch takes.
 */
module GuestToken {
  import opened Sets
  import opened Wrappers

  type Time = int

  const REFRESH_TIMING_BUFFER_MS := 5000
  const MIN_REFRESH_WAIT_MS := 10000
  const DEFAULT_TOKEN_EXP_MS := 300000

  /** A token that decodes carries an `exp` that may be missing or unreadable. */
  datatype Token = Jwt(exp: Option<Time>) | Malformed

  /** RFC 7519, section 4.1.4: not to be accepted on or after `exp`. */
  predicate Expired(token: Token, now: Time) {
    token.Jwt? && token.exp.Some? && token.exp.value <= now
  }

  function Max(a: int, b: int): int {
    if a < b then b else a
  }

  /** The requested delay until the next refresh. */
  function Timing(exp: Option<Time>, now: Time): int {
    (match exp
     case Some(at) => Max(MIN_REFRESH_WAIT_MS, at - now)
     case None => DEFAULT_TOKEN_EXP_MS)
    - REFRESH_TIMING_BUFFER_MS
  }

  const WORD := 0x1_0000_0000
  const HALF_WORD := 0x8000_0000

  /** `setTimeout` takes its delay as a signed 32-bit integer and waits no time for a negative one. */
  function Wait(delay: int): nat {
    var low := delay % WORD;
    if low < HALF_WORD then low else 0
  }

  // ----- The loop -----

  datatype Sent = Sent(at: Time, token: Token)

  /** What the page has done: tokens handed to the iframe, refreshes started, and the armed timer. */
  datatype Loop = Loop(sent: seq<Sent>, starts: seq<Time>, next: Option<Time>)

  /** One refresh as the environment plays it; a rejected fetch has no token. */
  datatype Reply = Reply(late: nat, latency: nat, token: Option<Token>)

  function Armed(token: Token, now: Time): Option<Time> {
    if token.Malformed? then None else Some(now + Wait(Timing(token.exp, now)))
  }

  function Embed(now: Time, token: Token): Loop {
    Loop([Sent(now, token)], [], Armed(token, now))
  }

  function Refreshed(s: Loop, r: Reply): Loop {
    if s.next.None? then s else
    var start := s.next.value + r.late;
    if r.token.None? then s.(starts := s.starts + [start], next := None) else
    var now := start + r.latency;
    Loop(s.sent + [Sent(now, r.token.value)], s.starts + [start], Armed(r.token.value, now))
  }

  function Run(s: Loop, replies: seq<Reply>): Loop {
    if replies == [] then s else Refreshed(Run(s, replies[..|replies| - 1]), replies[|replies| - 1])
  }

  /** The page's side of `embedDashboard`: what it has emitted, and its timer. */
  class Page {
    var sent: seq<Sent>
    var starts: seq<Time>
    var timer: Option<Time>

    function State(): Loop
      reads this
    {
      Loop(sent, starts, timer)
    }

    constructor (now: Time, token: Token)
      ensures State() == Embed(now, token)
    {
      sent := [Sent(now, token)];
      starts := [];
      timer := None;
      new;
      SetTimer(token, now);
    }

    /** Decoding a malformed token throws, so no timer is armed. */
    method SetTimer(token: Token, now: Time)
      modifies this`timer
      ensures timer == Armed(token, now)
    {
      timer := None;
      if token.Jwt? {
        timer := Some(now + Wait(Timing(token.exp, now)));
      }
    }

    /** The timer's callback, if one is armed: fetch, emit, arm the timer again. */
    method RefreshGuestToken(r: Reply)
      modifies this
      ensures State() == Refreshed(old(State()), r)
    {
      if timer.None? { return; }
      var start := timer.value + r.late;
      timer := None;
      starts := starts + [start];
      if r.token.Some? {
        var now := start + r.latency;
        sent := sent + [Sent(now, r.token.value)];
        SetTimer(r.token.value, now);
      }
    }
  }

  // ----- Continuity -----

  /** How much slower than planned a refresh may be before this token runs out. */
  function Slack(exp: Time, now: Time): int {
    exp - now - Wait(Timing(Some(exp), now))
  }

  /** Five seconds for a token with at least ten seconds left, less for a shorter one; wrapping only adds. */
  lemma SlackMeans(exp: Time, now: Time)
    ensures exp - now >= 10000 ==> Slack(exp, now) >= 5000
    ensures 10000 <= exp - now < 0x8000_0000 ==> Slack(exp, now) == 5000
    ensures exp - now < 10000 ==> Slack(exp, now) == exp - now - 5000
  {
    var delay := Timing(Some(exp), now);
    assert delay >= 0 && Wait(delay) <= delay;
  }

  ghost predicate Fresh(token: Token, from: Time, until: Time) {
    forall time :: from <= time < until ==> !Expired(token, time)
  }

  /** The iframe never held an expired token between two of the tokens it was sent. */
  ghost predicate NeverStale(sent: seq<Sent>) {
    forall i :: 0 <= i < |sent| - 1 ==> Fresh(sent[i].token, sent[i].at, sent[i + 1].at)
  }

  predicate InTime(s: Sent, r: Reply) {
    s.token.Jwt? && s.token.exp.Some? && r.token.Some? ==> r.late + r.latency <= Slack(s.token.exp.value, s.at)
  }

  /** Every refresh was as quick as the token before it allowed. */
  ghost predicate AllInTime(sent: seq<Sent>, replies: seq<Reply>) {
    forall n :: 0 <= n < |replies| && n + 1 < |sent| ==> InTime(sent[n], replies[n])
  }

  lemma {:induction false} RunGrows(now: Time, token: Token, replies: seq<Reply>)
    ensures var s := Run(Embed(now, token), replies);
      && 1 <= |s.sent| <= |replies| + 1
      && s.sent[0] == Sent(now, token)
      && |s.starts| <= |replies|
      && (forall i :: 0 <= i < |s.sent| - 1 ==> replies[i].token == Some(s.sent[i + 1].token))
      && (s.next.Some? ==>
        && |s.sent| == |replies| + 1 && |s.starts| == |replies| && s.sent[|replies|].token.Jwt?
        && s.next == Armed(s.sent[|replies|].token, s.sent[|replies|].at))
  {
    if replies != [] {
      RunGrows(now, token, replies[..|replies| - 1]);
    }
  }

  /** One replacement: the old token outlives it exactly when the refresh was in time. */
  lemma ReplacedInTime(held: Sent, start: Time, r: Reply)
    requires held.token.Jwt? && r.token.Some? && Armed(held.token, held.at) == Some(start)
    ensures InTime(held, r) <==> Fresh(held.token, held.at, start + r.late + r.latency)
  {
    var replaced := start + r.late + r.latency;
    if held.token.exp.Some? {
      var exp := held.token.exp.value;
      assert InTime(held, r) <==> replaced <= exp;
      if exp < replaced {
        var time := Max(exp, held.at);
        LateIsAfter(exp, held.at);
        assert held.at <= time < replaced && Expired(held.token, time);
      }
    }
  }

  /** A token replaced at the instant it was sent is far from expiry, so a late one was held a while. */
  lemma LateIsAfter(exp: Time, now: Time)
    ensures Wait(Timing(Some(exp), now)) > 0 || exp - now >= HALF_WORD
  {
  }

  lemma InTimeOneMore(s: Loop, t: Loop, replies: seq<Reply>)
    requires replies != [] && s.sent <= t.sent
    requires |t.sent| == |s.sent| <= |replies| || |t.sent| - 1 == |s.sent| == |replies|
    ensures AllInTime(t.sent, replies) <==>
      && AllInTime(s.sent, replies[..|replies| - 1])
      && (|t.sent| > |s.sent| ==> InTime(t.sent[|replies| - 1], replies[|replies| - 1]))
  {
    hide InTime;
    var earlier := replies[..|replies| - 1];
    assert forall k :: 0 <= k < |earlier| && k < |s.sent| ==> earlier[k] == replies[k] && t.sent[k] == s.sent[k];
    if AllInTime(t.sent, replies) {
      forall k | 0 <= k < |earlier| && k + 1 < |s.sent| ensures InTime(s.sent[k], earlier[k]) {
        assert InTime(t.sent[k], replies[k]);
      }
    }
  }

  /** Over a whole run, the iframe never held an expired token exactly when every refresh was in time. */
  lemma {:induction false} FreshExactlyIfInTime(now: Time, token: Token, replies: seq<Reply>)
    ensures var s := Run(Embed(now, token), replies); NeverStale(s.sent) <==> AllInTime(s.sent, replies)
  {
    if replies != [] {
      hide InTime, AllInTime, Fresh, NeverStale, Embed, Armed;
      var n := |replies| - 1;
      var s, t := Run(Embed(now, token), replies[..n]), Run(Embed(now, token), replies);
      assert t == Refreshed(s, replies[n]);
      FreshExactlyIfInTime(now, token, replies[..n]);
      RunGrows(now, token, replies[..n]);
      InTimeOneMore(s, t, replies);
      if s.next.Some? && replies[n].token.Some? {
        ReplacedInTime(s.sent[n], s.next.value, replies[n]);
        assert t.sent[..n + 1] == s.sent;
        SentOneMore(s, t);
      }
    }
  }

  lemma SentOneMore(s: Loop, t: Loop)
    requires 0 < |s.sent| == |t.sent| - 1 && t.sent[..|s.sent|] == s.sent
    ensures NeverStale(t.sent) <==>
      NeverStale(s.sent) && Fresh(s.sent[|s.sent| - 1].token, s.sent[|s.sent| - 1].at, t.sent[|s.sent|].at)
  {
    hide Fresh;
    var last := |s.sent| - 1;
    assert forall i :: 0 <= i <= last ==> t.sent[i] == s.sent[i];
    if NeverStale(t.sent) {
      forall i | 0 <= i < last ensures Fresh(s.sent[i].token, s.sent[i].at, s.sent[i + 1].at) {
        assert Fresh(t.sent[i].token, t.sent[i].at, t.sent[i + 1].at);
      }
    }
  }

  ghost predicate LongEnough(s: Sent) {
    s.token.Jwt? && s.token.exp.Some? ==> s.token.exp.value - s.at >= 10000
  }

  /**
   * The promise: with ten seconds left on every token and refreshes less than five seconds behind,
   * no expired token is ever held, up to and including the start of the next refresh.
   */
  lemma NeverExpiredWhileHeld(now: Time, token: Token, replies: seq<Reply>)
    requires forall i :: 0 <= i < |Run(Embed(now, token), replies).sent| ==>
      LongEnough(Run(Embed(now, token), replies).sent[i])
    requires forall n :: 0 <= n < |replies| ==> replies[n].late + replies[n].latency < 5000
    ensures var s := Run(Embed(now, token), replies);
      && NeverStale(s.sent)
      && (s.next.Some? ==> !Expired(s.sent[|s.sent| - 1].token, s.next.value))
  {
    var s := Run(Embed(now, token), replies);
    forall n | 0 <= n < |replies| && n + 1 < |s.sent| ensures InTime(s.sent[n], replies[n]) {
      assert LongEnough(s.sent[n]);
      if s.sent[n].token.Jwt? && s.sent[n].token.exp.Some? {
        SlackMeans(s.sent[n].token.exp.value, s.sent[n].at);
      }
    }
    FreshExactlyIfInTime(now, token, replies);
    RunGrows(now, token, replies);
    var last := s.sent[|s.sent| - 1];
    assert LongEnough(last);
    if s.next.Some? && last.token.exp.Some? {
      SlackMeans(last.token.exp.value, last.at);
    }
  }

  // ----- Spacing -----

  const MIN_SPACING_MS := 5000

  /**
   * The token keeps the next refresh five seconds away: it has no readable expiry, or less than ten
   * seconds left, or its delay keeps a value of at least five seconds as a signed 32-bit integer.
   */
  predicate KeepsDistance(s: Sent) {
    s.token.Jwt? && s.token.exp.Some? ==>
      var left := s.token.exp.value - s.at;
      left < 10000 || MIN_SPACING_MS <= (left - 5000) % 0x1_0000_0000 < 0x8000_0000
  }

  lemma WaitMeans(exp: Option<Time>, now: Time)
    ensures Wait(Timing(exp, now)) >= MIN_SPACING_MS <==> KeepsDistance(Sent(now, Jwt(exp)))
    ensures exp.None? ==> Wait(Timing(exp, now)) == 295000
  {
  }

  /** Refresh starts are at least five seconds apart as long as every token keeps its distance. */
  lemma {:induction false} StartsApart(now: Time, token: Token, replies: seq<Reply>)
    requires forall i :: 0 <= i < |Run(Embed(now, token), replies).sent| ==>
      KeepsDistance(Run(Embed(now, token), replies).sent[i])
    ensures var s := Run(Embed(now, token), replies);
      && (forall i, j :: 0 <= i <= j < |s.starts| ==> s.starts[j] - s.starts[i] >= MIN_SPACING_MS * (j - i))
      && (s.starts != [] && s.next.Some? ==> s.next.value - s.starts[|s.starts| - 1] >= MIN_SPACING_MS)
      && (s.starts != [] ==> s.starts[0] >= now + MIN_SPACING_MS)
      && (s.next.Some? ==> s.next.value >= now + MIN_SPACING_MS)
  {
    hide KeepsDistance, Wait, Timing;
    var s := Run(Embed(now, token), replies);
    if replies == [] {
      assert KeepsDistance(s.sent[0]);
      WaitMeans(if token.Jwt? then token.exp else None, now);
    } else {
      var n := |replies| - 1;
      var e := Run(Embed(now, token), replies[..n]);
      assert e.sent <= s.sent;
      forall i | 0 <= i < |e.sent| ensures KeepsDistance(e.sent[i]) {
        assert e.sent[i] == s.sent[i];
      }
      StartsApart(now, token, replies[..n]);
      if e.next.Some? && s.next.Some? {
        var last := s.sent[|s.sent| - 1];
        assert KeepsDistance(last);
        WaitMeans(last.token.exp, last.at);
      }
    }
  }

  // ----- Exactly which tokens keep the distance -----

  /** What the server grants each time: a token good for so long from its arrival, or with no readable expiry. */
  datatype Grant = Lasts(ms: int) | Unreadable

  datatype Delay = Delay(late: nat, latency: nat)

  function Issue(g: Grant, at: Time): Token {
    match g
    case Lasts(ms) => Jwt(Some(at + ms))
    case Unreadable => Jwt(None)
  }

  /** The replies that bring these grants with these delays. */
  function Play(now: Time, first: Grant, grants: seq<Grant>, delays: seq<Delay>): (replies: seq<Reply>)
    requires |delays| == |grants|
    ensures |replies| == |grants|
  {
    if grants == [] then []
    else
      var n := |grants| - 1;
      var earlier := Play(now, first, grants[..n], delays[..n]);
      var start := Run(Embed(now, Issue(first, now)), earlier).next.GetOr(now) + delays[n].late;
      earlier + [Reply(delays[n].late, delays[n].latency, Some(Issue(grants[n], start + delays[n].latency)))]
  }

  function Played(now: Time, first: Grant, grants: seq<Grant>, delays: seq<Delay>): Loop
    requires |delays| == |grants|
  {
    Run(Embed(now, Issue(first, now)), Play(now, first, grants, delays))
  }

  /** The embedding, the refresh starts, and the start the timer is armed for. */
  function Mark(s: Loop, now: Time, i: nat): Time {
    if i == 0 then now else if i <= |s.starts| then s.starts[i - 1] else s.next.GetOr(now)
  }

  function Gap(s: Loop, now: Time, i: nat): int {
    Mark(s, now, i + 1) - Mark(s, now, i)
  }

  ghost predicate Spaced(s: Loop, now: Time) {
    forall i: nat :: i <= |s.starts| && (i == |s.starts| ==> s.next.Some?) ==> Gap(s, now, i) >= MIN_SPACING_MS
  }

  function GrantWait(g: Grant): nat {
    Wait(Timing(Issue(g, 0).exp, 0))
  }

  lemma WaitOfGrant(g: Grant, at: Time)
    ensures Wait(Timing(Issue(g, at).exp, at)) == GrantWait(g)
    ensures KeepsDistance(Sent(at, Issue(g, at))) <==> GrantWait(g) >= MIN_SPACING_MS
  {
    WaitMeans(Issue(g, at).exp, at);
  }

  lemma LastPlayed(now: Time, first: Grant, grants: seq<Grant>, delays: seq<Delay>)
    requires |delays| == |grants| > 0
    requires var n := |grants| - 1; Played(now, first, grants[..n], delays[..n]).next.Some?
    ensures var n := |grants| - 1;
      var s, d := Played(now, first, grants[..n], delays[..n]), delays[n];
      Played(now, first, grants, delays)
        == Refreshed(s, Reply(d.late, d.latency, Some(Issue(grants[n], s.next.value + d.late + d.latency))))
  {
    hide Refreshed, Issue, Embed;
    var n := |grants| - 1;
    var replies := Play(now, first, grants, delays);
    assert replies[..n] == Play(now, first, grants[..n], delays[..n]);
  }

  lemma PlayedStep(now: Time, first: Grant, grants: seq<Grant>, delays: seq<Delay>)
    requires |delays| == |grants| > 0
    requires var n := |grants| - 1; Played(now, first, grants[..n], delays[..n]).next.Some?
    ensures var n := |grants| - 1;
      var s, t := Played(now, first, grants[..n], delays[..n]), Played(now, first, grants, delays);
      var start := s.next.value + delays[n].late;
      && t.starts == s.starts + [start]
      && t.next == Some(start + delays[n].latency + GrantWait(grants[n]))
  {
    hide Played, Play, Run, Embed, Wait, Timing, GrantWait;
    LastPlayed(now, first, grants, delays);
    var n := |grants| - 1;
    var due := Played(now, first, grants[..n], delays[..n]).next.value;
    WaitOfGrant(grants[n], due + delays[n].late + delays[n].latency);
  }

  /** Every gap is at least the wait for it; `exact` says it is that wait. */
  ghost predicate GapsOf(s: Loop, now: Time, waits: seq<nat>, exact: bool) {
    && s.next.Some? && |waits| == |s.starts| + 1
    && forall i: nat :: i < |waits| ==> Gap(s, now, i) >= waits[i] && (exact ==> Gap(s, now, i) == waits[i])
  }

  lemma GapsExtend(s: Loop, t: Loop, now: Time, waits: seq<nat>, d: Delay, wait: nat, exact: bool)
    requires GapsOf(s, now, waits, exact) && (exact ==> d == Delay(0, 0))
    requires t.starts == s.starts + [s.next.value + d.late]
    requires t.next == Some(s.next.value + d.late + d.latency + wait)
    ensures GapsOf(t, now, waits + [wait], exact)
  {
    forall i: nat | i <= |waits|
      ensures Gap(t, now, i) >= (waits + [wait])[i] && (exact ==> Gap(t, now, i) == (waits + [wait])[i])
    {
      if i < |waits| - 1 {
        assert Gap(t, now, i) == Gap(s, now, i);
      } else if i == |waits| - 1 {
        assert Gap(t, now, i) == Gap(s, now, i) + d.late;
      } else {
        assert Gap(t, now, i) == d.latency + wait;
      }
    }
  }

  function GrantWaits(grants: seq<Grant>): (waits: seq<nat>)
    ensures |waits| == |grants| && forall i :: 0 <= i < |grants| ==> waits[i] == GrantWait(grants[i])
  {
    seq(|grants|, i requires 0 <= i < |grants| => GrantWait(grants[i]))
  }

  /** Each gap is the wait of the token before it and whatever delays come with it. */
  lemma {:induction false} PlayedGaps(now: Time, first: Grant, grants: seq<Grant>, delays: seq<Delay>, exact: bool)
    requires |delays| == |grants| && (exact ==> forall i :: 0 <= i < |delays| ==> delays[i] == Delay(0, 0))
    ensures |Played(now, first, grants, delays).starts| == |grants|
    ensures GapsOf(Played(now, first, grants, delays), now, GrantWaits([first] + grants), exact)
  {
    hide Played, GapsOf, GrantWait;
    if grants == [] {
      FirstGap(now, first, delays, exact);
      assert [first] + grants == [first];
    } else {
      var n := |grants| - 1;
      var s, t := Played(now, first, grants[..n], delays[..n]), Played(now, first, grants, delays);
      PlayedGaps(now, first, grants[..n], delays[..n], exact);
      GapsOfNext(s, now, GrantWaits([first] + grants[..n]), exact);
      PlayedStep(now, first, grants, delays);
      GapsExtend(s, t, now, GrantWaits([first] + grants[..n]), delays[n], GrantWait(grants[n]), exact);
      assert GrantWaits([first] + grants) == GrantWaits([first] + grants[..n]) + [GrantWait(grants[n])];
    }
  }

  lemma FirstGap(now: Time, first: Grant, delays: seq<Delay>, exact: bool)
    requires delays == []
    ensures Played(now, first, [], delays).starts == []
    ensures GapsOf(Played(now, first, [], delays), now, GrantWaits([first]), exact)
  {
    WaitOfGrant(first, now);
  }

  lemma GapsOfNext(s: Loop, now: Time, waits: seq<nat>, exact: bool)
    requires GapsOf(s, now, waits, exact)
    ensures s.next.Some?
  {
  }

  function NoDelays(n: nat): (delays: seq<Delay>)
    ensures |delays| == n && forall i :: 0 <= i < n ==> delays[i] == Delay(0, 0)
  {
    seq(n, _ => Delay(0, 0))
  }

  /**
   * Whatever the lateness and latency, refreshes start at least five seconds apart, if and only if
   * every granted token keeps its distance.
   */
  lemma SpacedIffGrantsKeepDistance(now: Time, first: Grant, grants: seq<Grant>)
    ensures (forall delays: seq<Delay> :: |delays| == |grants| ==> Spaced(Played(now, first, grants, delays), now)) <==>
      forall i :: 0 <= i <= |grants| ==> KeepsDistance(Sent(now, Issue(([first] + grants)[i], now)))
  {
    hide KeepsDistance, GrantWait, Gap, Played, Issue;
    forall i | 0 <= i <= |grants|
      ensures KeepsDistance(Sent(now, Issue(([first] + grants)[i], now))) <==>
        GrantWait(([first] + grants)[i]) >= MIN_SPACING_MS
    {
      WaitOfGrant(([first] + grants)[i], now);
    }
    forall delays: seq<Delay> | |delays| == |grants|
      ensures (forall i :: 0 <= i <= |grants| ==> GrantWait(([first] + grants)[i]) >= MIN_SPACING_MS)
           ==> Spaced(Played(now, first, grants, delays), now)
    {
      PlayedGaps(now, first, grants, delays, false);
    }
    var none := NoDelays(|grants|);
    PlayedGaps(now, first, grants, none, true);
    if Spaced(Played(now, first, grants, none), now) {
      forall i: nat | i <= |grants| ensures GrantWait(([first] + grants)[i]) >= MIN_SPACING_MS {
        assert Gap(Played(now, first, grants, none), now, i) >= MIN_SPACING_MS;
      }
    }
  }

  // ----- How many refreshes -----

  function StartsIn(starts: seq<Time>, from: Time, window: nat): set<nat> {
    set i | 0 <= i < |starts| && from <= starts[i] <= from + window
  }

  /** Any window of W ms holds at most W / 5000 + 1 refresh starts. */
  lemma AtMostPerWindow(now: Time, token: Token, replies: seq<Reply>, from: Time, window: nat)
    requires forall i :: 0 <= i < |Run(Embed(now, token), replies).sent| ==>
      KeepsDistance(Run(Embed(now, token), replies).sent[i])
    ensures |StartsIn(Run(Embed(now, token), replies).starts, from, window)| <= window / MIN_SPACING_MS + 1
  {
    var starts := Run(Embed(now, token), replies).starts;
    StartsApart(now, token, replies);
    FewFrom(starts, from, window, 0);
    assert StartsFrom(starts, from, window, 0) == StartsIn(starts, from, window);
  }

  function StartsFrom(starts: seq<Time>, from: Time, window: nat, lo: nat): set<nat> {
    set i: nat | lo <= i < |starts| && from <= starts[i] <= from + window
  }

  lemma {:induction false} FewFrom(starts: seq<Time>, from: Time, window: nat, lo: nat)
    requires lo <= |starts|
    requires forall i, j :: 0 <= i <= j < |starts| ==> starts[j] - starts[i] >= MIN_SPACING_MS * (j - i)
    ensures |StartsFrom(starts, from, window, lo)| <= window / MIN_SPACING_MS + 1
    decreases |starts| - lo
  {
    var inside := StartsFrom(starts, from, window, lo);
    if lo == |starts| {
      assert inside == {};
    } else if from <= starts[lo] <= from + window {
      var range := Range(lo, window / MIN_SPACING_MS + 1);
      forall i | i in inside ensures i in range {
        assert MIN_SPACING_MS * (i - lo) <= window;
      }
      SubsetSize(inside, range);
    } else {
      FewFrom(starts, from, window, lo + 1);
      assert inside == StartsFrom(starts, from, window, lo + 1);
    }
  }

  // ----- A delay that wraps -----

  function Instant(token: Token, n: nat): seq<Reply> {
    if n == 0 then [] else Instant(token, n - 1) + [Reply(0, 0, Some(token))]
  }

  predicate Wraps(exp: Time, now: Time) {
    var low := (exp - now - 5000) % 0x1_0000_0000;
    exp - now >= 10000 && (low == 0 || low >= 0x8000_0000)
  }

  lemma WrapsToNothing(exp: Time, now: Time)
    requires Wraps(exp, now)
    ensures Wait(Timing(Some(exp), now)) == 0
  {
  }

  lemma OneInstant(s: Loop, now: Time, token: Token)
    requires s.next == Some(now) && token.Jwt? && Armed(token, now) == Some(now)
    requires forall i :: 0 <= i < |s.starts| ==> s.starts[i] == now
    ensures var t := Refreshed(s, Reply(0, 0, Some(token)));
      t.next == Some(now) && |t.starts| == |s.starts| + 1 && forall i :: 0 <= i < |t.starts| ==> t.starts[i] == now
  {
    hide Armed;
  }

  /** A token whose delay wraps to zero or below: any number of refreshes in one instant. */
  lemma {:induction false} WrappedTokensRefreshAtOnce(now: Time, exp: Time, n: nat)
    requires Wraps(exp, now)
    ensures var s := Run(Embed(now, Jwt(Some(exp))), Instant(Jwt(Some(exp)), n));
      |s.starts| == n && (forall i :: 0 <= i < n ==> s.starts[i] == now) && s.next == Some(now)
  {
    WrapsToNothing(exp, now);
    hide Wait, Timing, Wraps;
    if n > 0 {
      hide Refreshed, Embed;
      WrappedTokensRefreshAtOnce(now, exp, n - 1);
      var token := Jwt(Some(exp));
      var replies := Instant(token, n);
      assert replies[..|replies| - 1] == Instant(token, n - 1);
      OneInstant(Run(Embed(now, token), Instant(token, n - 1)), now, token);
    }
  }

  // ----- The end of the loop -----

  /** Nothing catches a rejected fetch or a malformed token: no later reply is ever asked for. */
  lemma {:induction false} StoppedForGood(s: Loop, replies: seq<Reply>)
    requires s.next.None?
    ensures Run(s, replies) == s
  {
    if replies != [] {
      StoppedForGood(s, replies[..|replies| - 1]);
    }
  }

  /** The loop is still armed exactly when every fetch so far brought a token that decodes. */
  lemma {:induction false} RunsWhileTokensDecode(now: Time, token: Token, replies: seq<Reply>)
    ensures Run(Embed(now, token), replies).next.Some? <==>
      token.Jwt? && forall n :: 0 <= n < |replies| ==> replies[n].token.Some? && replies[n].token.value.Jwt?
  {
    if replies != [] {
      var earlier := replies[..|replies| - 1];
      RunsWhileTokensDecode(now, token, earlier);
      assert forall n :: 0 <= n < |earlier| ==> earlier[n] == replies[n];
    }
  }

  // ----- The page -----

  /** Embed a dashboard, then let the environment play its replies on the page. */
  method EmbedAndRefresh(now: Time, token: Token, replies: seq<Reply>) returns (page: Page)
    ensures fresh(page) && page.State() == Run(Embed(now, token), replies)
    ensures NeverStale(page.sent) <==> AllInTime(page.sent, replies)
    ensures page.timer.Some? <==>
      token.Jwt? && forall n :: 0 <= n < |replies| ==> replies[n].token.Some? && replies[n].token.value.Jwt?
    ensures (forall i :: 0 <= i < |page.sent| ==> KeepsDistance(page.sent[i])) ==>
      forall i, j :: 0 <= i <= j < |page.starts| ==> page.starts[j] - page.starts[i] >= MIN_SPACING_MS * (j - i)
  {
    hide Embed, Refreshed, NeverStale, AllInTime, KeepsDistance;
    page := new Page(now, token);
    assert replies[..0] == [];
    for n := 0 to |replies|
      invariant fresh(page) && page.State() == Run(Embed(now, token), replies[..n])
    {
      page.RefreshGuestToken(replies[n]);
      assert replies[..n + 1][..n] == replies[..n];
    }
    assert replies[..|replies|] == replies;
    FreshExactlyIfInTime(now, token, replies);
    RunsWhileTokensDecode(now, token, replies);
    if forall i :: 0 <= i < |page.sent| ==> KeepsDistance(page.sent[i]) {
      StartsApart(now, token, replies);
    }
  }
}
