/** Pairing: who may talk to the agent over a messaging channel. */
module Pairing {
  import opened MemoryModel

  const CODE_TTL := 3600.0
  const REQUEST_INTERVAL := 600.0
  const MAX_FAILURES := 5
  const LOCKOUT := 3600.0

  datatype PendingCode = PendingCode(channel: string, createdAt: Time)

  datatype UserState = UserState(failures: int, lockedUntil: Time, lastRequest: Time)

  const FRESH := UserState(0, 0.0, 0.0)

  datatype State = State(paired: map<string, seq<string>>, pending: map<string, PendingCode>,
                         users: map<string, UserState>)

  const NOBODY := State(map[], map[], map[])

  datatype Reply = Usage | TooManyAttempts | Locked(minutes: int) | InvalidCode | PairingDone

  /** The record key; users whose channel and id concatenate alike share a record. */
  function UserKey(channel: string, uid: string): string { channel + ":" + uid }

  function User(s: State, key: string): UserState {
    if key in s.users then s.users[key] else FRESH
  }

  function PairedWith(s: State, channel: string): seq<string> {
    if channel in s.paired then s.paired[channel] else []
  }

  predicate IsPaired(s: State, channel: string, uid: string) { uid in PairedWith(s, channel) }

  predicate ValidCode(s: State, channel: string, code: string, now: Time) {
    code in s.pending && s.pending[code].channel == channel && now - s.pending[code].createdAt <= CODE_TTL
  }

  // ----- the operations on values ------------------------------------------

  function AfterIssue(s: State, channel: string, code: string, now: Time): State {
    s.(pending := s.pending[code := PendingCode(channel, now)])
  }

  function AfterFailure(u: UserState, now: Time): UserState {
    if u.failures + 1 >= MAX_FAILURES then u.(failures := 0, lockedUntil := now + LOCKOUT)
    else u.(failures := u.failures + 1)
  }

  function AfterRedeem(s: State, channel: string, uid: string, code: string, now: Time): State {
    var key := UserKey(channel, uid);
    var u := User(s, key);
    if u.lockedUntil > now then s
    else if !ValidCode(s, channel, code, now) then s.(users := s.users[key := AfterFailure(u, now)])
    else
      var list := PairedWith(s, channel);
      State(s.paired[channel := if uid in list then list else list + [uid]], s.pending - {code}, s.users[key := FRESH])
  }

  function RedeemReply(s: State, channel: string, uid: string, code: string, now: Time): Reply {
    var u := User(s, UserKey(channel, uid));
    if u.lockedUntil > now then Locked(((u.lockedUntil - now) / 60.0).Floor + 1)
    else if ValidCode(s, channel, code, now) then PairingDone
    else InvalidCode
  }

  function AfterMark(s: State, channel: string, uid: string, now: Time): State {
    var key := UserKey(channel, uid);
    s.(users := s.users[key := User(s, key).(lastRequest := now)])
  }

  function WithoutFirst(s: seq<string>, x: string): seq<string> {
    if s == [] then [] else if s[0] == x then s[1..] else [s[0]] + WithoutFirst(s[1..], x)
  }

  function AfterUnpair(s: State, channel: string, uid: string): State {
    if IsPaired(s, channel, uid) then s.(paired := s.paired[channel := WithoutFirst(s.paired[channel], uid)]) else s
  }

  // ----- the manager ---------------------------------------------------------

  class PairingManager {
    /** Whitespace stripped and upper-cased. */
    const normalise: string -> string
    var paired: map<string, seq<string>>
    var pending: map<string, PendingCode>
    var users: map<string, UserState>

    ghost function Contents(): State
      reads this
    {
      State(paired, pending, users)
    }

    constructor (normalise: string -> string)
      ensures Contents() == NOBODY && this.normalise == normalise
    {
      this.normalise := normalise;
      paired, pending, users := map[], map[], map[];
    }

    /** The code stands for eight characters drawn by `secrets`. */
    method NewCode(channel: string, code: string, now: Time)
      modifies this
      ensures Contents() == AfterIssue(old(Contents()), channel, code, now)
      ensures paired == old(paired) && users == old(users)
      ensures pending == old(pending)[code := PendingCode(channel, now)]
    {
      pending := pending[code := PendingCode(channel, now)];
    }

    /**
     * A locked user changes nothing; a wrong code is counted and the fifth locks for an hour; a
     * right one, issued for this channel within the hour, is used up, pairs the user and clears the record.
     */
    method Redeem(channel: string, uid: string, code: string, now: Time) returns (reply: Reply)
      modifies this
      ensures Contents() == AfterRedeem(old(Contents()), channel, uid, normalise(code), now)
      ensures reply == RedeemReply(old(Contents()), channel, uid, normalise(code), now)
      ensures var u, entry := old(User(Contents(), channel + ":" + uid)), normalise(code);
              var list := if channel in old(paired) then old(paired)[channel] else [];
              && (u.lockedUntil > now ==>
                    && Contents() == old(Contents()) && reply.Locked?
                    && (reply.minutes - 1) as real <= (u.lockedUntil - now) / 60.0 < reply.minutes as real)
              && (u.lockedUntil <= now && reply != PairingDone ==>
                    && paired == old(paired) && pending == old(pending) && reply == InvalidCode
                    && users == old(users)[channel + ":" + uid :=
                         if u.failures + 1 >= 5 then UserState(0, now + 3600.0, u.lastRequest)
                         else UserState(u.failures + 1, u.lockedUntil, u.lastRequest)])
              && (reply == PairingDone <==>
                    && u.lockedUntil <= now && entry in old(pending)
                    && old(pending)[entry].channel == channel && now - old(pending)[entry].createdAt <= 3600.0)
              && (reply == PairingDone ==>
                    && paired == old(paired)[channel := if uid in list then list else list + [uid]]
                    && pending == old(pending) - {entry}
                    && users == old(users)[channel + ":" + uid := UserState(0, 0.0, 0.0)])
    {
      var key := UserKey(channel, uid);
      var u := if key in users then users[key] else FRESH;
      if u.lockedUntil > now {
        return Locked(((u.lockedUntil - now) / 60.0).Floor + 1);
      }
      var entry := normalise(code);
      var valid := entry in pending && pending[entry].channel == channel && now - pending[entry].createdAt <= CODE_TTL;
      if !valid {
        u := u.(failures := u.failures + 1);
        if u.failures >= MAX_FAILURES {
          u := u.(lockedUntil := now + LOCKOUT, failures := 0);
        }
        users := users[key := u];
        return InvalidCode;
      }
      if channel !in paired {
        paired := paired[channel := []];
      }
      if uid !in paired[channel] {
        paired := paired[channel := paired[channel] + [uid]];
      }
      pending := pending - {entry};
      users := users[key := FRESH];
      return PairingDone;
    }

    method CanRequest(channel: string, uid: string, now: Time) returns (ok: bool)
      ensures ok <==> now - User(Contents(), UserKey(channel, uid)).lastRequest >= REQUEST_INTERVAL
    {
      var key := UserKey(channel, uid);
      var u := if key in users then users[key] else FRESH;
      return now - u.lastRequest >= REQUEST_INTERVAL;
    }

    method MarkRequest(channel: string, uid: string, now: Time)
      modifies this
      ensures Contents() == AfterMark(old(Contents()), channel, uid, now)
    {
      var key := UserKey(channel, uid);
      var u := if key in users then users[key] else FRESH;
      users := users[key := u.(lastRequest := now)];
    }

    method Unpair(channel: string, uid: string)
      modifies this
      ensures Contents() == AfterUnpair(old(Contents()), channel, uid)
      ensures pending == old(pending) && users == old(users) && paired.Keys == old(paired).Keys
      ensures forall c :: c in paired && c != channel ==> paired[c] == old(paired)[c]
      ensures channel in paired && NoRepeats(old(paired)[channel]) ==>
                forall u :: u in paired[channel] <==> u in old(paired)[channel] && u != uid
    {
      if channel in paired && uid in paired[channel] {
        if NoRepeats(paired[channel]) { WithoutFirstRemoves(paired[channel], uid); }
        paired := paired[channel := WithoutFirst(paired[channel], uid)];
      }
    }

    /** The gateway's `/pair` handler: the rate limit stands in front of redemption. */
    method HandlePair(channel: string, uid: string, parts: seq<string>, now: Time) returns (reply: Reply)
      modifies this
      ensures Contents() == Step(normalise, old(Contents()), Pair(channel, uid, parts, now))
      ensures reply == Answer(normalise, old(Contents()), Pair(channel, uid, parts, now))
      ensures var u := old(User(Contents(), channel + ":" + uid));
              && (reply == Usage <==> |parts| < 2)
              && (reply == TooManyAttempts <==> |parts| >= 2 && now - u.lastRequest < 600.0)
              && (reply == Usage || reply == TooManyAttempts ==> Contents() == old(Contents()))
              && (reply == InvalidCode || reply.Locked? ==>
                    && paired == old(paired) && pending == old(pending)
                    && User(Contents(), channel + ":" + uid).lastRequest == now)
              && (reply == PairingDone ==> IsPaired(Contents(), channel, uid) && normalise(parts[1]) !in pending)
    {
      if |parts| < 2 {
        return Usage;
      }
      var allowed := CanRequest(channel, uid, now);
      if !allowed {
        return TooManyAttempts;
      }
      MarkRequest(channel, uid, now);
      reply := Redeem(channel, uid, parts[1], now);
    }
  }

  // ----- runs ------------------------------------------------------------------

  datatype Op =
    | Issue(channel: string, code: string, at: Time)
    | Pair(channel: string, uid: string, parts: seq<string>, at: Time)
    | Unpaired(channel: string, uid: string, at: Time)

  predicate Allowed(s: State, op: Op) {
    op.Pair? && |op.parts| >= 2 && op.at - User(s, UserKey(op.channel, op.uid)).lastRequest >= REQUEST_INTERVAL
  }

  function Step(normalise: string -> string, s: State, op: Op): State {
    match op
    case Issue(channel, code, at) => AfterIssue(s, channel, code, at)
    case Unpaired(channel, uid, at) => AfterUnpair(s, channel, uid)
    case Pair(channel, uid, parts, at) =>
      if Allowed(s, op) then AfterRedeem(AfterMark(s, channel, uid, at), channel, uid, normalise(parts[1]), at) else s
  }

  function Answer(normalise: string -> string, s: State, op: Op): Reply
    requires op.Pair?
  {
    if |op.parts| < 2 then Usage
    else if !Allowed(s, op) then TooManyAttempts
    else RedeemReply(AfterMark(s, op.channel, op.uid, op.at), op.channel, op.uid, normalise(op.parts[1]), op.at)
  }

  function Run(normalise: string -> string, s: State, ops: seq<Op>): State
    decreases |ops|
  {
    if ops == [] then s else Run(normalise, Step(normalise, s, ops[0]), ops[1..])
  }

  predicate For(op: Op, key: string) { op.Pair? && UserKey(op.channel, op.uid) == key }

  /** A code was actually compared: the attempt passed the rate limit and the lock. */
  predicate Checked(normalise: string -> string, s: State, op: Op, key: string) {
    For(op, key) && (Answer(normalise, s, op) == InvalidCode || Answer(normalise, s, op) == PairingDone)
  }

  predicate Succeeds(normalise: string -> string, s: State, op: Op) {
    op.Pair? && Answer(normalise, s, op) == PairingDone
  }

  function Checks(normalise: string -> string, s: State, ops: seq<Op>, key: string): nat
    decreases |ops|
  {
    if ops == [] then 0
    else (if Checked(normalise, s, ops[0], key) then 1 else 0)
         + Checks(normalise, Step(normalise, s, ops[0]), ops[1..], key)
  }

  predicate NoSuccess(normalise: string -> string, s: State, ops: seq<Op>, key: string)
    decreases |ops|
  {
    ops == [] || (!(For(ops[0], key) && Succeeds(normalise, s, ops[0]))
                  && NoSuccess(normalise, Step(normalise, s, ops[0]), ops[1..], key))
  }

  /** No counter ever holds the fifth failure. */
  ghost predicate CountersBelowLimit(s: State) {
    forall key :: key in s.users ==> 0 <= s.users[key].failures < MAX_FAILURES
  }

  lemma {:induction false} CountersStayBelowLimit(normalise: string -> string, s: State, ops: seq<Op>)
    requires CountersBelowLimit(s)
    ensures CountersBelowLimit(Run(normalise, s, ops))
    decreases |ops|
  {
    if ops == [] {
    } else {
      CountersStayBelowLimit(normalise, Step(normalise, s, ops[0]), ops[1..]);
    }
  }

  // ----- the guess bound ----------------------------------------------------

  /**
   * The earliest offset of the i-th check (from 0) when the first comes with f failures on
   * record: ten minutes a check, and fifty more whenever the count has filled up to five.
   */
  function Offset(f: nat, i: nat): real { (600 * i + 3000 * ((f + i) / MAX_FAILURES)) as real }

  lemma OffsetStep(f: nat, i: nat)
    ensures Offset(f, i + 1) == Offset(f, i) + (if (f + i + 1) % MAX_FAILURES == 0 then LOCKOUT else REQUEST_INTERVAL)
  {
    assert (f + i + 1) / 5 == (f + i) / 5 + (if (f + i + 1) % 5 == 0 then 1 else 0);
  }

  /** The user's record after i failed checks since `start`: the next check cannot come before its offset. */
  ghost predicate Paced(u: UserState, start: Time, f: nat, i: nat) {
    && u.failures == (f + i) % MAX_FAILURES
    && (i > 0 ==> u.lastRequest + REQUEST_INTERVAL >= start + Offset(f, i) || u.lockedUntil >= start + Offset(f, i))
  }

  lemma PacedStep(normalise: string -> string, s: State, op: Op, key: string, start: Time, f: nat, i: nat)
    requires Paced(User(s, key), start, f, i) && op.at >= start && f < MAX_FAILURES
    requires !(For(op, key) && Succeeds(normalise, s, op)) && User(s, key).failures < MAX_FAILURES
    ensures Checked(normalise, s, op, key)
            ==> Offset(f, i) <= op.at - start && Paced(User(Step(normalise, s, op), key), start, f, i + 1)
    ensures !Checked(normalise, s, op, key) ==> Paced(User(Step(normalise, s, op), key), start, f, i)
  {
    if For(op, key) && Allowed(s, op) {
      OffsetStep(f, i);
      if i == 0 { assert Offset(f, 0) == 0.0; }
    }
  }

  lemma KeyBelowLimit(s: State, key: string)
    requires CountersBelowLimit(s)
    ensures 0 <= User(s, key).failures < MAX_FAILURES
  {
  }

  /** The last of n further checks in the window comes no earlier than its offset allows. */
  lemma {:induction false} ChecksArePaced(normalise: string -> string, s: State, ops: seq<Op>, key: string,
                                          start: Time, length: real, f: nat, i: nat)
    requires CountersBelowLimit(s) && f < MAX_FAILURES && Paced(User(s, key), start, f, i)
    requires forall k :: 0 <= k < |ops| ==> start <= ops[k].at <= start + length
    requires NoSuccess(normalise, s, ops, key)
    ensures var n := Checks(normalise, s, ops, key); n > 0 ==> Offset(f, i + n - 1) <= length
    decreases |ops|
  {
    hide Step, Checked, Paced, Offset, Succeeds, CountersBelowLimit;
    if ops == [] {
    } else {
      var s', rest := Step(normalise, s, ops[0]), ops[1..];
      KeyBelowLimit(s, key);
      PacedStep(normalise, s, ops[0], key, start, f, i);
      CountersStayBelowLimit(normalise, s, [ops[0]]);
      assert Run(normalise, s, [ops[0]]) == s' by { assert [ops[0]][1..] == []; }
      assert forall k :: 0 <= k < |rest| ==> rest[k] == ops[k + 1];
      if Checked(normalise, s, ops[0], key) {
        ChecksArePaced(normalise, s', rest, key, start, length, f, i + 1);
      } else {
        ChecksArePaced(normalise, s', rest, key, start, length, f, i);
      }
    }
  }

  /**
   * The guess bound: whatever a user sends through the gateway, and whatever happened before,
   * at most 5 * (L / 6000 + 1) codes are compared for that user in a window of L seconds in
   * which none of them pairs.
   */
  lemma GuessBound(normalise: string -> string, s: State, ops: seq<Op>, key: string, start: Time, length: real)
    requires CountersBelowLimit(s) && length >= 0.0
    requires forall k :: 0 <= k < |ops| ==> start <= ops[k].at <= start + length
    requires NoSuccess(normalise, s, ops, key)
    ensures Checks(normalise, s, ops, key) <= 5 * ((length / 6000.0).Floor + 1)
  {
    var n, f := Checks(normalise, s, ops, key), User(s, key).failures;
    ChecksArePaced(normalise, s, ops, key, start, length, f, 0);
    var q := (length / 6000.0).Floor;
    WholePeriods(length, q);
    if n > 5 * (q + 1) {
      OffsetGrows(f, 5 * (q + 1), n - 1);
    }
  }

  lemma WholePeriods(length: real, q: int)
    requires length >= 0.0 && q == (length / 6000.0).Floor
    ensures q >= 0 && length < (6000 * (q + 1)) as real
  {
    assert length / 6000.0 < (q + 1) as real;
  }

  lemma OffsetGrows(f: nat, i: nat, j: nat)
    requires i <= j && i % 5 == 0
    ensures Offset(f, j) >= (1200 * i) as real
  {
    assert (f + j) / 5 >= i / 5;
    assert 600 * j + 3000 * ((f + j) / 5) >= 600 * i + 3000 * (i / 5);
  }

  // ----- codes are single use -------------------------------------------------

  function At(normalise: string -> string, ops: seq<Op>, k: nat): State
    requires k <= |ops|
  {
    if k == 0 then NOBODY else Step(normalise, At(normalise, ops, k - 1), ops[k - 1])
  }

  predicate Redeems(normalise: string -> string, ops: seq<Op>, k: nat, code: string)
    requires k < |ops|
  {
    Succeeds(normalise, At(normalise, ops, k), ops[k]) && normalise(ops[k].parts[1]) == code
  }

  /** The i-th operation issued this code, and nothing before k issued or redeemed it again. */
  ghost predicate IssuedBy(normalise: string -> string, ops: seq<Op>, i: nat, k: nat, code: string, p: PendingCode) {
    && i < k <= |ops| && ops[i] == Issue(p.channel, code, p.createdAt)
    && forall j :: i < j < k ==> !(ops[j].Issue? && ops[j].code == code) && !Redeems(normalise, ops, j, code)
  }

  lemma {:induction false} PendingWasIssued(normalise: string -> string, ops: seq<Op>, k: nat, code: string)
    returns (i: nat)
    requires k <= |ops| && code in At(normalise, ops, k).pending
    decreases k
    ensures IssuedBy(normalise, ops, i, k, code, At(normalise, ops, k).pending[code])
  {
    hide AfterRedeem, AfterMark, AfterUnpair, Succeeds;
    var s, op := At(normalise, ops, k - 1), ops[k - 1];
    if op.Issue? && op.code == code {
      i := k - 1;
    } else {
      PendingKept(normalise, s, op, code);
      assert !Redeems(normalise, ops, k - 1, code);
      i := PendingWasIssued(normalise, ops, k - 1, code);
    }
  }

  lemma PendingKept(normalise: string -> string, s: State, op: Op, code: string)
    requires code in Step(normalise, s, op).pending && !(op.Issue? && op.code == code)
    ensures code in s.pending && s.pending[code] == Step(normalise, s, op).pending[code]
    ensures !(Succeeds(normalise, s, op) && normalise(op.parts[1]) == code)
  {
  }

  /** A code pairs only on the channel it was issued for, within an hour of being issued. */
  lemma SuccessNeedsFreshCode(normalise: string -> string, ops: seq<Op>, k: nat) returns (i: nat)
    requires k < |ops| && Succeeds(normalise, At(normalise, ops, k), ops[k])
    ensures var code := normalise(ops[k].parts[1]);
            && i < k && ops[i].Issue? && ops[i].code == code && ops[i].channel == ops[k].channel
            && ops[k].at - ops[i].at <= CODE_TTL
            && IssuedBy(normalise, ops, i, k, code, PendingCode(ops[i].channel, ops[i].at))
  {
    i := PendingWasIssued(normalise, ops, k, normalise(ops[k].parts[1]));
  }

  /** Between two redemptions of one code it was issued again: an issued code pairs at most one user. */
  lemma CodesAreSingleUse(normalise: string -> string, ops: seq<Op>, j: nat, k: nat, code: string) returns (i: nat)
    requires j < k < |ops| && Redeems(normalise, ops, j, code) && Redeems(normalise, ops, k, code)
    ensures j < i < k && ops[i].Issue? && ops[i].code == code
  {
    i := SuccessNeedsFreshCode(normalise, ops, k);
    assert !(i < j);
  }

  ghost predicate NoRepeats(s: seq<string>) { forall i, j :: 0 <= i < j < |s| ==> s[i] != s[j] }

  lemma {:induction false} WithoutFirstRemoves(s: seq<string>, x: string)
    requires NoRepeats(s)
    ensures NoRepeats(WithoutFirst(s, x)) && forall y :: y in WithoutFirst(s, x) <==> y in s && y != x
  {
    if s == [] {
    } else {
      assert s == [s[0]] + s[1..];
      if s[0] != x {
        WithoutFirstRemoves(s[1..], x);
        assert s[0] !in s[1..];
        assert s[0] !in WithoutFirst(s[1..], x);
      }
    }
  }

  lemma {:induction false} ListsHaveNoRepeats(normalise: string -> string, ops: seq<Op>, k: nat, channel: string)
    requires k <= |ops|
    ensures NoRepeats(PairedWith(At(normalise, ops, k), channel))
  {
    if k == 0 {
    } else {
      ListsHaveNoRepeats(normalise, ops, k - 1, channel);
      var s, op := At(normalise, ops, k - 1), ops[k - 1];
      if op.Unpaired? && op.channel == channel {
        WithoutFirstRemoves(PairedWith(s, channel), op.uid);
      }
    }
  }

  /** Deny by default: whoever is paired redeemed a code on that channel and was not unpaired since. */
  lemma {:induction false} PairedRedeemed(normalise: string -> string, ops: seq<Op>, k: nat, channel: string,
                                          uid: string)
    returns (j: nat)
    requires k <= |ops| && IsPaired(At(normalise, ops, k), channel, uid)
    ensures j < k && ops[j].Pair? && ops[j].channel == channel && ops[j].uid == uid
    ensures Succeeds(normalise, At(normalise, ops, j), ops[j])
    ensures forall i :: j < i < k ==> ops[i] != Unpaired(channel, uid, ops[i].at)
  {
    var s, op := At(normalise, ops, k - 1), ops[k - 1];
    if op.Pair? && op.channel == channel && op.uid == uid && Succeeds(normalise, s, op) {
      j := k - 1;
    } else {
      ListsHaveNoRepeats(normalise, ops, k - 1, channel);
      if op.Unpaired? && op.channel == channel {
        WithoutFirstRemoves(PairedWith(s, channel), op.uid);
      }
      j := PairedRedeemed(normalise, ops, k - 1, channel, uid);
    }
  }

  /** The success at j has not been undone by k. */
  ghost predicate RedeemedAt(normalise: string -> string, ops: seq<Op>, j: nat, k: nat, channel: string, uid: string)
    requires k <= |ops|
  {
    && j < k && ops[j].Pair? && ops[j].channel == channel && ops[j].uid == uid
    && Succeeds(normalise, At(normalise, ops, j), ops[j])
    && forall i :: j < i < k ==> !(ops[i].Unpaired? && ops[i].channel == channel && ops[i].uid == uid)
  }

  /** A success pairs, and the user stays paired until unpaired. */
  lemma {:induction false} RedeemedStaysPaired(normalise: string -> string, ops: seq<Op>, j: nat, k: nat,
                                               channel: string, uid: string)
    requires k <= |ops| && RedeemedAt(normalise, ops, j, k, channel, uid)
    ensures uid in PairedWith(At(normalise, ops, k), channel)
    decreases k
  {
    hide PairedWith, Step, NoRepeats, Succeeds;
    ListsHaveNoRepeats(normalise, ops, k - 1, channel);
    StepPairs(normalise, At(normalise, ops, k - 1), ops[k - 1], channel, uid);
    if j == k - 1 {
    } else {
      RedeemedStaysPaired(normalise, ops, j, k - 1, channel, uid);
    }
  }

  lemma StepPairs(normalise: string -> string, s: State, op: Op, channel: string, uid: string)
    requires NoRepeats(PairedWith(s, channel))
    ensures op.Pair? && op.channel == channel && op.uid == uid && Succeeds(normalise, s, op)
            ==> uid in PairedWith(Step(normalise, s, op), channel)
    ensures uid in PairedWith(s, channel) && !(op.Unpaired? && op.channel == channel && op.uid == uid)
            ==> uid in PairedWith(Step(normalise, s, op), channel)
  {
    if op.Unpaired? && op.channel == channel {
      WithoutFirstRemoves(PairedWith(s, channel), op.uid);
    }
  }

  /** Who may talk to the agent: exactly the users who redeemed a code on the channel and were not unpaired since. */
  lemma PairedExactly(normalise: string -> string, ops: seq<Op>, k: nat, channel: string, uid: string)
    requires k <= |ops|
    ensures uid in PairedWith(At(normalise, ops, k), channel)
            <==> exists j: nat :: RedeemedAt(normalise, ops, j, k, channel, uid)
  {
    hide At, PairedWith;
    if IsPaired(At(normalise, ops, k), channel, uid) {
      var j := PairedRedeemed(normalise, ops, k, channel, uid);
      assert RedeemedAt(normalise, ops, j, k, channel, uid);
    }
    if j: nat :| RedeemedAt(normalise, ops, j, k, channel, uid) {
      RedeemedStaysPaired(normalise, ops, j, k, channel, uid);
    }
  }

  // ----- nobody is refused without a reason ---------------------------------------

  /** A `/pair` message with a code, from this user. */
  predicate Attempt(op: Op, channel: string, uid: string) {
    op.Pair? && op.channel + ":" + op.uid == channel + ":" + uid && |op.parts| >= 2
  }

  predicate WrongAt(normalise: string -> string, ops: seq<Op>, j: nat, channel: string, uid: string)
    requires j < |ops|
  {
    Attempt(ops[j], channel, uid) && Answer(normalise, At(normalise, ops, j), ops[j]) == InvalidCode
  }

  /** The record holds nothing but the time of an attempt and an hour from a wrong code. */
  ghost predicate RecordExplained(normalise: string -> string, ops: seq<Op>, k: nat, channel: string, uid: string)
    requires k <= |ops|
  {
    var u := User(At(normalise, ops, k), channel + ":" + uid);
    && (u.lastRequest == 0.0 || exists j :: 0 <= j < k && Attempt(ops[j], channel, uid) && ops[j].at == u.lastRequest)
    && (u.lockedUntil == 0.0
        || exists j :: 0 <= j < k && WrongAt(normalise, ops, j, channel, uid) && ops[j].at + 3600.0 == u.lockedUntil)
  }

  lemma {:induction false} RecordIsExplained(normalise: string -> string, ops: seq<Op>, k: nat,
                                             channel: string, uid: string)
    requires k <= |ops|
    ensures RecordExplained(normalise, ops, k, channel, uid)
  {
    if k == 0 {
    } else {
      RecordIsExplained(normalise, ops, k - 1, channel, uid);
      var u := User(At(normalise, ops, k - 1), channel + ":" + uid);
      var u' := User(At(normalise, ops, k), channel + ":" + uid);
      if u'.lastRequest != u.lastRequest && u'.lastRequest != 0.0 { assert Attempt(ops[k - 1], channel, uid); }
      if u'.lockedUntil != u.lockedUntil && u'.lockedUntil != 0.0 {
        assert WrongAt(normalise, ops, k - 1, channel, uid);
      }
    }
  }

  /** A code issued at i for the channel is still there when nothing reissued or redeemed it. */
  lemma {:induction false} CodeStays(normalise: string -> string, ops: seq<Op>, i: nat, k: nat, code: string)
    requires i < k <= |ops| && ops[i].Issue? && ops[i].code == code
    requires forall j :: i < j < k ==> !(ops[j].Issue? && ops[j].code == code) && !Redeems(normalise, ops, j, code)
    ensures var pending := At(normalise, ops, k).pending;
            code in pending && pending[code] == PendingCode(ops[i].channel, ops[i].at)
    decreases k
  {
    if i == k - 1 {
    } else {
      CodeStays(normalise, ops, i, k - 1, code);
      assert !Redeems(normalise, ops, k - 1, code);
    }
  }

  /**
   * Success is complete: a code issued for the channel at most an hour ago, and neither reissued
   * nor redeemed since, pairs any user who made no attempt in the last ten minutes and gave no
   * wrong code in the last hour.
   */
  lemma FreshCodePairs(normalise: string -> string, ops: seq<Op>, i: nat, k: nat, code: string)
    requires i < k < |ops| && ops[i].Issue? && ops[i].code == code
    requires forall j :: i < j < k ==> !(ops[j].Issue? && ops[j].code == code) && !Redeems(normalise, ops, j, code)
    requires ops[k].Pair? && |ops[k].parts| >= 2 && normalise(ops[k].parts[1]) == code
    requires ops[k].channel == ops[i].channel && ops[k].at - ops[i].at <= 3600.0 && ops[k].at >= 600.0
    requires forall j :: 0 <= j < k && Attempt(ops[j], ops[k].channel, ops[k].uid) ==> ops[k].at - ops[j].at >= 600.0
    requires forall j :: 0 <= j < k && WrongAt(normalise, ops, j, ops[k].channel, ops[k].uid)
               ==> ops[k].at - ops[j].at >= 3600.0
    ensures Answer(normalise, At(normalise, ops, k), ops[k]) == PairingDone
    ensures ops[k].uid in PairedWith(At(normalise, ops, k + 1), ops[k].channel)
  {
    hide At;
    CodeStays(normalise, ops, i, k, code);
    RecordIsExplained(normalise, ops, k, ops[k].channel, ops[k].uid);
    assert RedeemedAt(normalise, ops, k, k + 1, ops[k].channel, ops[k].uid);
    RedeemedStaysPaired(normalise, ops, k, k + 1, ops[k].channel, ops[k].uid);
  }
}
