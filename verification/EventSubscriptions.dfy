/** The gateway's bookkeeping of interests and event subscriptions on one kernel. Every await of the
    asynchronous code is a point where other calls may run, so each stretch between two awaits is
    one step here. */
module EventSubscriptions {
  import Histories

  type Handle = nat
  type Attempt = nat
  type RiderId = nat

  const INTEREST_CAP: nat := 64

  // ---- Keys ----------------------------------------------------------------------------------

  function EventKey(interest: string, object_: string, event: string): string {
    interest + "\0" + object_ + "\0" + event
  }

  function Prefix(interest: string): string { interest + "\0" }

  ghost predicate NulFree(s: string) { '\0' !in s }

  /** One of two different interest names starts with the other one's prefix. */
  ghost predicate Interferes(x: string, y: string) { Prefix(x) <= y || Prefix(y) <= x }

  /** Which keys the prefix test selects, for every name: the interest's own, those of an interest
      whose name starts with the prefix, and those of a shorter interest whose object and event
      complete the prefix. */
  lemma {:induction false} PrefixSelects(interest: string, object_: string, event: string, other: string)
    ensures Prefix(other) <= EventKey(interest, object_, event)
            <==> || interest == other
                 || Prefix(other) <= interest
                 || (Prefix(interest) <= other && Prefix(other[|interest| + 1..]) <= object_ + "\0" + event)
    ensures NulFree(interest) && NulFree(other) ==>
              (Prefix(other) <= EventKey(interest, object_, event) <==> interest == other)
  {
    var key, n, m := EventKey(interest, object_, event), |other|, |interest|;
    assert key == Prefix(interest) + (object_ + "\0" + event);
    if m < n {
      SelectsShorter(interest, object_ + "\0" + event, other);
    } else if n < m {
      assert key[..n + 1] == interest[..n + 1];
      assert Prefix(other)[n] == '\0';
    } else {
      assert key[..n] == interest && Prefix(other)[..n] == other;
      assert interest == other ==> key[..n + 1] == Prefix(other);
    }
  }

  lemma {:induction false} SelectsShorter(interest: string, rest: string, other: string)
    requires |interest| < |other|
    ensures Prefix(other) <= Prefix(interest) + rest
            <==> Prefix(interest) <= other && Prefix(other[|interest| + 1..]) <= rest
    ensures NulFree(other) ==> !(Prefix(interest) <= other) && !(Prefix(other) <= Prefix(interest) + rest)
  {
    var m, all := |interest| + 1, Prefix(interest) + rest;
    assert all[..m] == Prefix(interest) && all[m..] == rest && Prefix(interest)[m - 1] == '\0';
    assert Prefix(other)[m..] == Prefix(other[m..]) && Prefix(other)[..m] == other[..m];
    if Prefix(other) <= all {
      assert other[..m] == all[..m];
      assert Prefix(other)[m..] == all[..|other| + 1][m..] == rest[..|other| + 1 - m];
    }
    if Prefix(interest) <= other && Prefix(other[m..]) <= rest {
      assert Prefix(other) == Prefix(interest) + Prefix(other[m..]);
      assert Prefix(other) == all[..|other| + 1];
    }
  }

  /** Releasing one interest can select a key of another exactly when one of the two names starts
      with the other and a NUL. */
  lemma {:induction false} SelectsAnotherIff(interest: string, other: string)
    requires interest != other
    ensures (exists o: string, e: string :: Prefix(other) <= EventKey(interest, o, e)) <==> Interferes(other, interest)
  {
    if o: string, e: string :| Prefix(other) <= EventKey(interest, o, e) {
      PrefixSelects(interest, o, e, other);
    }
    if Interferes(other, interest) {
      var o := SelectedObject(interest, other);
      assert Prefix(other) <= EventKey(interest, o, "");
    }
  }

  /** An object of `interest` whose keys the prefix of `other` selects. */
  lemma {:induction false} SelectedObject(interest: string, other: string) returns (o: string)
    requires interest != other && Interferes(other, interest)
    ensures forall e: string :: Prefix(other) <= EventKey(interest, o, e)
  {
    o := if Prefix(interest) <= other then other[|interest| + 1..] else "";
    forall e: string ensures Prefix(other) <= EventKey(interest, o, e) {
      if Prefix(interest) <= other {
        assert o + "\0" + e == Prefix(o) + e;
        assert (Prefix(o) + e)[..|o| + 1] == Prefix(o);
      }
      PrefixSelects(interest, o, e, other);
    }
  }

  /** Without NUL in interest and object names, different triples have different keys. */
  lemma {:induction false} EventKeyIsInjective(i: string, o: string, e: string, i': string, o': string, e': string)
    requires NulFree(i) && NulFree(o) && NulFree(i') && NulFree(o')
    requires EventKey(i, o, e) == EventKey(i', o', e')
    ensures i == i' && o == o' && e == e'
  {
    FirstNul(i, o + "\0" + e, i', o' + "\0" + e');
    assert EventKey(i, o, e) == i + "\0" + (o + "\0" + e) && EventKey(i', o', e') == i' + "\0" + (o' + "\0" + e');
    FirstNul(o, e, o', e');
  }

  lemma {:induction false} FirstNul(a: string, rest: string, a': string, rest': string)
    requires NulFree(a) && NulFree(a')
    ensures a + "\0" + rest == a' + "\0" + rest' ==> a == a' && rest == rest'
  {
    var x, y := a + "\0" + rest, a' + "\0" + rest';
    if x == y {
      assert x[|a|] == '\0' && y[|a'|] == '\0';
      assert a == x[..|a|] && a' == y[..|a'|];
      assert rest == x[|a| + 1..] && rest' == y[|a'| + 1..];
    }
  }

  /** Another subscription with the same key. */
  ghost predicate SharesKey(i: string, o: string, e: string, i': string, o': string, e': string) {
    EventKey(i', o', e') == EventKey(i, o, e) && (i' != i || o' != o || e' != e)
  }

  /** Some other subscription has the key of this one exactly when one of its three names has a NUL. */
  lemma {:induction false} KeyIsSharedIff(i: string, o: string, e: string)
    ensures (exists i': string, o': string, e': string :: SharesKey(i, o, e, i', o', e'))
            <==> !(NulFree(i) && NulFree(o) && NulFree(e))
  {
    if NulFree(i) && NulFree(o) && NulFree(e) {
      forall i': string, o': string, e': string ensures !SharesKey(i, o, e, i', o', e') {
        if SharesKey(i, o, e, i', o', e') {
          NulFreeKeyIsUnique(i, o, e, i', o', e');
        }
      }
    } else {
      var i', o', e' := SharingTriple(i, o, e);
    }
  }

  lemma {:induction false} NulFreeKeyIsUnique(i: string, o: string, e: string, i': string, o': string, e': string)
    requires NulFree(i) && NulFree(o) && NulFree(e) && EventKey(i', o', e') == EventKey(i, o, e)
    ensures i' == i && o' == o && e' == e
  {
    var key, first, second := EventKey(i, o, e), |i|, |i| + 1 + |o|;
    assert forall k :: 0 <= k < |key| ==> (key[k] == '\0' <==> k == first || k == second);
    assert EventKey(i', o', e')[|i'|] == '\0' && EventKey(i', o', e')[|i'| + 1 + |o'|] == '\0';
    assert |i'| == first && |i'| + 1 + |o'| == second;
    KeyParts(i, o, e);
    KeyParts(i', o', e');
  }

  lemma {:induction false} KeyParts(i: string, o: string, e: string)
    ensures var key := EventKey(i, o, e);
            key[..|i|] == i && key[|i| + 1..|i| + 1 + |o|] == o && key[|i| + 1 + |o| + 1..] == e
  {
    var key, n := EventKey(i, o, e), |i| + 1;
    assert key[n..] == o + "\0" + e;
    assert key[n..][..|o|] == o && key[n..][|o| + 1..] == e;
  }

  /** A triple with the same key, cut at another NUL. */
  lemma {:induction false} SharingTriple(i: string, o: string, e: string) returns (i': string, o': string, e': string)
    requires !(NulFree(i) && NulFree(o) && NulFree(e))
    ensures SharesKey(i, o, e, i', o', e')
  {
    if !NulFree(i) {
      var k :| 0 <= k < |i| && i[k] == '\0';
      i', o', e' := i[..k], i[k + 1..], o + "\0" + e;
      assert i == i' + "\0" + o';
      assert EventKey(i', o', e') == i' + "\0" + o' + "\0" + (o + "\0" + e);
    } else if !NulFree(o) {
      var k :| 0 <= k < |o| && o[k] == '\0';
      i', o', e' := i, o[..k], o[k + 1..] + "\0" + e;
      assert o == o' + "\0" + o[k + 1..];
    } else {
      var k :| 0 <= k < |e| && e[k] == '\0';
      i', o', e' := i, o + "\0" + e[..k], e[k + 1..];
      assert e == e[..k] + "\0" + e';
    }
  }

  /** With NUL in a name both promises fail: releasing "a" selects keys of "a\0b", releasing "a\0b"
      selects keys of "a", and two different subscriptions share a key. */
  lemma {:induction false} NulBreaksKeys()
    ensures Prefix("a") <= EventKey("a\0b", "o", "e")
    ensures Prefix("a\0b") <= EventKey("a", "b", "e")
    ensures EventKey("a", "b\0c", "d") == EventKey("a", "b", "c\0d")
  {
  }

  // ---- State ---------------------------------------------------------------------------------

  /** One call that installed a handler: what for, and on which interest handle. */
  datatype Subscription = Subscription(interest: string, handle: Handle, key: string)

  /** A call waiting for another one's outcome. */
  datatype Rider = Rider(interest: string, handle: Handle, key: string, on: Attempt)

  datatype Phase = Open | Aborted | Releasing | Done

  /** `live` holds the handlers installed and not cancelled, `waiting` the attempts whose
      acknowledgement is still outstanding; both are named by attempt. */
  datatype Kernel = Kernel(interests: map<string, Handle>, pending: set<string>,
                           cancels: map<string, Attempt>, subscribes: map<string, Attempt>,
                           live: set<Attempt>, waiting: set<Attempt>,
                           attempts: seq<Subscription>, riders: map<RiderId, Rider>, phase: Phase)

  function Start(): Kernel { Kernel(map[], {}, map[], map[], {}, {}, [], map[], Open) }

  predicate MayReserve(k: Kernel, name: string) {
    name !in k.interests && name !in k.pending && |k.interests| + |k.pending| < INTEREST_CAP
  }

  /** Installs a handler and records it under its key with its acknowledgement outstanding. */
  function Install(k: Kernel, interest: string, handle: Handle, key: string): Kernel {
    var a := |k.attempts|;
    k.(live := k.live + {a}, cancels := k.cancels[key := a], subscribes := k.subscribes[key := a],
       waiting := k.waiting + {a}, attempts := k.attempts + [Subscription(interest, handle, key)])
  }

  /** From the call, or from waking up, to the next await. */
  function SubscribeOrRide(k: Kernel, interest: string, handle: Handle, key: string, rider: RiderId): Kernel {
    if key in k.subscribes then
      k.(riders := k.riders[rider := Rider(interest, handle, key, k.subscribes[key])])
    else if key in k.cancels then k
    else Install(k, interest, handle, key)
  }

  function Subscribe(k: Kernel, interest: string, key: string, rider: RiderId): Kernel
    requires interest in k.interests
  {
    SubscribeOrRide(k, interest, k.interests[interest], key, rider)
  }

  /** The awaited attempt is settled: answer "already subscribed", fail if the kernel is shutting
      down or the interest is another one by now, or try again. */
  function Wake(k: Kernel, rider: RiderId): Kernel
    requires rider in k.riders
  {
    var r, awake := k.riders[rider], k.(riders := k.riders - {rider});
    if r.key in k.cancels then awake
    else if k.phase != Open then awake
    else if r.interest !in k.interests || k.interests[r.interest] != r.handle then awake
    else SubscribeOrRide(awake, r.interest, r.handle, r.key, rider)
  }

  /** The acknowledgement came, failed, or lost the race against the abort signal; only entries of
      this very attempt are retracted. */
  function Settle(k: Kernel, a: Attempt, ok: bool): Kernel
    requires a < |k.attempts|
  {
    var key := k.attempts[a].key;
    var settled := k.(waiting := k.waiting - {a},
                      subscribes := if key in k.subscribes && k.subscribes[key] == a then k.subscribes - {key}
                                    else k.subscribes);
    if ok then settled
    else settled.(live := k.live - {a},
                  cancels := if key in k.cancels && k.cancels[key] == a then k.cancels - {key} else k.cancels)
  }

  function CancelKeys(k: Kernel, keys: set<string>): Kernel {
    k.(cancels := k.cancels - keys, subscribes := k.subscribes - keys,
       live := k.live - HandlersOf(k.cancels, keys))
  }

  function HandlersOf(cancels: map<string, Attempt>, keys: set<string>): set<Attempt> {
    set key | key in keys && key in cancels :: cancels[key]
  }

  function Selected(k: Kernel, interest: string): set<string> {
    set key | key in k.cancels && Prefix(interest) <= key
  }

  function ReleaseInterest(k: Kernel, name: string): Kernel {
    CancelKeys(k, Selected(k, name)).(interests := k.interests - {name})
  }

  function SelectedByAny(k: Kernel, names: set<string>): set<string> {
    set name, key | name in names && key in k.cancels && Prefix(name) <= key :: key
  }

  datatype Event =
    | Reserve(name: string)
    | Commit(name: string, handle: Handle)
    | Abandon(name: string)
    | Release(name: string)
    | SubscribeTo(interest: string, object_: string, event: string, rider: RiderId)
    | WakeRider(rider: RiderId)
    | Acknowledge(attempt: Attempt)
    | Fail(attempt: Attempt)
    | Unsubscribe(interest: string, object_: string, event: string)
    | UnsubscribeAll(interest: string)
    | Abort
    | TearDown
    | Finish

  /** Tool calls reach an open kernel and an open interest; continuations run when what they await
      has happened. */
  ghost predicate Enabled(k: Kernel, e: Event) {
    match e
    case Reserve(name) => k.phase == Open
    case Commit(name, _) => name in k.pending
    case Abandon(name) => name in k.pending
    case Release(name) => k.phase == Open && name in k.interests
    case SubscribeTo(interest, _, _, rider) => k.phase == Open && interest in k.interests && rider !in k.riders
    case WakeRider(rider) => rider in k.riders && k.riders[rider].on !in k.waiting
    case Acknowledge(a) => a in k.waiting && a < |k.attempts|
    case Fail(a) => a in k.waiting && a < |k.attempts|
    case Unsubscribe(_, _, _) => true
    case UnsubscribeAll(interest) => interest in k.interests
    case Abort => k.phase == Open
    case TearDown => k.phase == Aborted
    case Finish => k.phase == Releasing
  }

  function Step(k: Kernel, e: Event): Kernel
    requires Enabled(k, e)
  {
    match e
    case Reserve(name) => if MayReserve(k, name) then k.(pending := k.pending + {name}) else k
    case Commit(name, handle) => k.(pending := k.pending - {name}, interests := k.interests[name := handle])
    case Abandon(name) => k.(pending := k.pending - {name})
    case Release(name) => ReleaseInterest(k, name)
    case SubscribeTo(interest, o, ev, rider) => Subscribe(k, interest, EventKey(interest, o, ev), rider)
    case WakeRider(rider) => Wake(k, rider)
    case Acknowledge(a) => Settle(k, a, true)
    case Fail(a) => Settle(k, a, false)
    case Unsubscribe(i, o, ev) =>
      var key := EventKey(i, o, ev);
      if key in k.cancels then CancelKeys(k, {key}) else k
    case UnsubscribeAll(interest) => CancelKeys(k, Selected(k, interest))
    case Abort => k.(phase := Aborted)
    case TearDown => CancelKeys(k, SelectedByAny(k, k.interests.Keys)).(phase := Releasing)
    case Finish => k.(interests := map[], phase := Done)
  }

  // ---- Invariant -----------------------------------------------------------------------------

  /** The entry of a key: a live handler of a known attempt on the interest that is open now. */
  ghost predicate EntryInv(k: Kernel, key: string)
    requires key in k.cancels
  {
    var a := k.cancels[key];
    && a < |k.attempts| && k.attempts[a].key == key && a in k.live
    && k.attempts[a].interest in k.interests
    && k.interests[k.attempts[a].interest] == k.attempts[a].handle
  }

  /** A live handler is the one stored under its key, and pending exactly while unacknowledged. */
  ghost predicate HandlerInv(k: Kernel, a: Attempt) {
    && a < |k.attempts|
    && var key := k.attempts[a].key;
       && key in k.cancels && k.cancels[key] == a
       && (a in k.waiting <==> key in k.subscribes && k.subscribes[key] == a)
  }

  ghost predicate KeysInv(k: Kernel) {
    && (forall s :: s in k.attempts ==> IsKeyOf(s.key, s.interest))
    && (forall r :: r in k.riders ==> RiderInv(k, k.riders[r]))
  }

  /** A waiting call waits for an attempt at its own key. */
  ghost predicate RiderInv(k: Kernel, r: Rider) {
    IsKeyOf(r.key, r.interest) && r.on < |k.attempts| && k.attempts[r.on].key == r.key
  }

  ghost predicate IsKeyOf(key: string, interest: string) {
    exists o: string, e: string :: key == EventKey(interest, o, e)
  }

  ghost predicate SlotsInv(k: Kernel) {
    && k.interests.Keys !! k.pending && |k.interests| + |k.pending| <= INTEREST_CAP
  }

  ghost predicate Inv(k: Kernel) {
    && (forall key :: key in k.cancels ==> EntryInv(k, key))
    && (forall a :: a in k.live ==> HandlerInv(k, a))
    && (forall key :: key in k.subscribes ==> key in k.cancels && k.subscribes[key] == k.cancels[key])
    && (forall a :: a in k.waiting ==> a < |k.attempts|)
    && (k.phase == Releasing || k.phase == Done ==> k.cancels == map[])
    && KeysInv(k)
    && SlotsInv(k)
  }

  lemma {:induction false} CancelKeysKeeps(k: Kernel, keys: set<string>)
    requires Inv(k)
    ensures Inv(CancelKeys(k, keys))
  {
    OtherEntriesStay(k, keys);
    OtherHandlersStay(k, keys);
  }

  lemma {:induction false} OtherEntriesStay(k: Kernel, keys: set<string>)
    requires forall key :: key in k.cancels ==> EntryInv(k, key)
    ensures var t := CancelKeys(k, keys); forall key :: key in t.cancels ==> EntryInv(t, key)
  {
    forall key | key in CancelKeys(k, keys).cancels ensures EntryInv(CancelKeys(k, keys), key) {
      OtherEntryStays(k, keys, key);
    }
  }

  lemma {:induction false} OtherHandlersStay(k: Kernel, keys: set<string>)
    requires forall a :: a in k.live ==> HandlerInv(k, a)
    ensures var t := CancelKeys(k, keys); forall a :: a in t.live ==> HandlerInv(t, a)
  {
    forall a | a in CancelKeys(k, keys).live ensures HandlerInv(CancelKeys(k, keys), a) {
      OtherHandlerStays(k, keys, a);
    }
  }

  lemma {:induction false} OtherHandlerStays(k: Kernel, keys: set<string>, a: Attempt)
    requires HandlerInv(k, a) && a in CancelKeys(k, keys).live
    ensures HandlerInv(CancelKeys(k, keys), a)
  {
  }

  lemma {:induction false} OtherEntryStays(k: Kernel, keys: set<string>, key: string)
    requires forall other :: other in k.cancels ==> EntryInv(k, other)
    requires key in k.cancels && key !in keys
    ensures key in CancelKeys(k, keys).cancels && EntryInv(CancelKeys(k, keys), key)
  {
  }

  lemma {:induction false} InstallKeeps(k: Kernel, interest: string, handle: Handle, key: string)
    requires Inv(k) && k.phase == Open && key !in k.cancels
    requires interest in k.interests && k.interests[interest] == handle && IsKeyOf(key, interest)
    ensures Inv(Install(k, interest, handle, key))
  {
    var t := Install(k, interest, handle, key);
    forall other | other in t.cancels ensures EntryInv(t, other) {
      InstallKeepsEntry(k, interest, handle, key, other);
    }
    forall a | a in t.live ensures HandlerInv(t, a) {
      InstallKeepsHandler(k, interest, handle, key, a);
    }
    InstallKeepsKeys(k, interest, handle, key);
  }

  lemma {:induction false} InstallKeepsEntry(k: Kernel, interest: string, handle: Handle, key: string, other: string)
    requires interest in k.interests && k.interests[interest] == handle
    requires other == key || (other in k.cancels && EntryInv(k, other))
    ensures EntryInv(Install(k, interest, handle, key), other)
  {
  }

  lemma {:induction false} InstallKeepsHandler(k: Kernel, interest: string, handle: Handle, key: string, a: Attempt)
    requires key !in k.cancels && (a == |k.attempts| || HandlerInv(k, a))
    ensures HandlerInv(Install(k, interest, handle, key), a)
  {
  }

  lemma {:induction false} InstallKeepsKeys(k: Kernel, interest: string, handle: Handle, key: string)
    requires KeysInv(k) && IsKeyOf(key, interest)
    ensures KeysInv(Install(k, interest, handle, key))
  {
    var t := Install(k, interest, handle, key);
    forall r | r in t.riders ensures RiderInv(t, t.riders[r]) {
      assert RiderInv(k, k.riders[r]);
    }
  }

  lemma {:induction false} SubscribeOrRideKeeps(k: Kernel, interest: string, handle: Handle, key: string,
                                                rider: RiderId)
    requires Inv(k) && k.phase == Open
    requires interest in k.interests && k.interests[interest] == handle && IsKeyOf(key, interest)
    ensures Inv(SubscribeOrRide(k, interest, handle, key, rider))
  {
    var t := SubscribeOrRide(k, interest, handle, key, rider);
    if key in k.subscribes {
      SameEntries(k, t);
    } else if key !in k.cancels {
      InstallKeeps(k, interest, handle, key);
    }
  }

  /** Nothing the entries speak of has changed. */
  lemma {:induction false} SameEntries(k: Kernel, t: Kernel)
    requires Inv(k) && KeysInv(t) && SlotsInv(t)
    requires t.cancels == k.cancels && t.subscribes == k.subscribes && t.live == k.live && t.waiting == k.waiting
    requires t.attempts == k.attempts && t.phase == k.phase
    requires forall n :: n in k.interests ==> n in t.interests && t.interests[n] == k.interests[n]
    ensures Inv(t)
  {
  }

  lemma {:induction false} OneRiderLess(k: Kernel, rider: RiderId)
    requires Inv(k)
    ensures Inv(k.(riders := k.riders - {rider}))
  {
    SameEntries(k, k.(riders := k.riders - {rider}));
  }

  lemma {:induction false} WakeKeeps(k: Kernel, rider: RiderId)
    requires Inv(k) && rider in k.riders
    ensures Inv(Wake(k, rider))
  {
    var r, awake := k.riders[rider], k.(riders := k.riders - {rider});
    OneRiderLess(k, rider);
    if r.key !in k.cancels && k.phase == Open && r.interest in k.interests && k.interests[r.interest] == r.handle {
      SubscribeOrRideKeeps(awake, r.interest, r.handle, r.key, rider);
    }
  }

  lemma {:induction false} SettleKeeps(k: Kernel, a: Attempt, ok: bool)
    requires Inv(k) && a in k.waiting
    ensures Inv(Settle(k, a, ok))
  {
    var t := Settle(k, a, ok);
    forall key | key in t.cancels ensures EntryInv(t, key) {
      SettleKeepsEntry(k, a, ok, key);
    }
    forall b | b in t.live ensures HandlerInv(t, b) {
      SettleKeepsHandler(k, a, ok, b);
    }
  }

  lemma {:induction false} SettleKeepsEntry(k: Kernel, a: Attempt, ok: bool, key: string)
    requires a < |k.attempts| && key in k.cancels && EntryInv(k, key) && key in Settle(k, a, ok).cancels
    ensures EntryInv(Settle(k, a, ok), key)
  {
  }

  lemma {:induction false} SettleKeepsHandler(k: Kernel, a: Attempt, ok: bool, b: Attempt)
    requires a < |k.attempts| && HandlerInv(k, b) && b in Settle(k, a, ok).live
    ensures HandlerInv(Settle(k, a, ok), b)
  {
  }

  /** Closing an interest takes every entry that belongs to it, and another one only if the names
      interfere. */
  lemma {:induction false} ReleaseKeeps(k: Kernel, name: string)
    requires Inv(k) && name in k.interests
    ensures Inv(ReleaseInterest(k, name))
    ensures forall key :: key in k.cancels && InterestOf(k, key) == name ==> key !in ReleaseInterest(k, name).cancels
    ensures forall key :: key in k.cancels && InterestOf(k, key) != name && !Interferes(name, InterestOf(k, key)) ==>
              key in ReleaseInterest(k, name).cancels && ReleaseInterest(k, name).cancels[key] == k.cancels[key]
  {
    var keys := Selected(k, name);
    CancelKeysKeeps(k, keys);
    var t := ReleaseInterest(k, name);
    forall key | key in k.cancels
      ensures InterestOf(k, key) == name ==> key in keys
      ensures InterestOf(k, key) != name && !Interferes(name, InterestOf(k, key)) ==> key !in keys
    {
      KeyBelongs(k, key, name);
    }
    ClosedKeeps(CancelKeys(k, keys), name);
  }

  /** The interest whose subscription is stored under a key. */
  ghost function InterestOf(k: Kernel, key: string): string
    requires key in k.cancels && EntryInv(k, key)
  {
    k.attempts[k.cancels[key]].interest
  }

  /** An interest without entries can go. */
  lemma {:induction false} ClosedKeeps(k: Kernel, name: string)
    requires Inv(k) && forall key :: key in k.cancels ==> InterestOf(k, key) != name
    ensures Inv(k.(interests := k.interests - {name}))
  {
    var t := k.(interests := k.interests - {name});
    assert t.interests.Keys == k.interests.Keys - {name};
    assert |t.interests| == |t.interests.Keys| && |k.interests| == |k.interests.Keys|;
    forall key | key in t.cancels ensures EntryInv(t, key) {
      assert EntryInv(k, key);
    }
    forall a | a in t.live ensures HandlerInv(t, a) {
      assert HandlerInv(k, a);
    }
  }

  lemma {:induction false} KeyBelongs(k: Kernel, key: string, name: string)
    requires Inv(k) && key in k.cancels
    ensures InterestOf(k, key) == name ==> key in Selected(k, name)
    ensures key in Selected(k, name) ==> InterestOf(k, key) == name || Interferes(name, InterestOf(k, key))
  {
    var s := k.attempts[k.cancels[key]];
    var o: string, e: string :| s.key == EventKey(s.interest, o, e);
    PrefixSelects(s.interest, o, e, name);
  }

  /** Once every open interest has been torn down no entry is left. */
  lemma {:induction false} TearDownEmpties(k: Kernel)
    requires Inv(k)
    ensures (k.cancels - SelectedByAny(k, k.interests.Keys)) == map[]
  {
    forall key | key in k.cancels ensures key in SelectedByAny(k, k.interests.Keys) {
      KeyBelongs(k, key, k.attempts[k.cancels[key]].interest);
    }
  }

  /** Reserving, committing and giving up a slot leave the entries alone. */
  lemma {:induction false} SlotsChange(k: Kernel, interests: map<string, Handle>, pending: set<string>)
    requires Inv(k) && SlotsInv(k.(interests := interests, pending := pending))
    requires forall n :: n in k.interests ==> n in interests && interests[n] == k.interests[n]
    ensures Inv(k.(interests := interests, pending := pending))
  {
  }

  lemma {:induction false} ReserveKeeps(k: Kernel, name: string)
    requires Inv(k) && MayReserve(k, name)
    ensures Inv(k.(pending := k.pending + {name}))
  {
  }

  lemma {:induction false} AbandonKeeps(k: Kernel, name: string)
    requires Inv(k) && name in k.pending
    ensures Inv(k.(pending := k.pending - {name}))
  {
  }

  lemma {:induction false} CommitKeeps(k: Kernel, name: string, handle: Handle)
    requires Inv(k) && name in k.pending
    ensures Inv(k.(pending := k.pending - {name}, interests := k.interests[name := handle]))
  {
    var committed := k.interests[name := handle];
    assert |committed| == |committed.Keys| && |k.interests| == |k.interests.Keys|;
    SlotsChange(k, committed, k.pending - {name});
  }

  lemma {:induction false} ShutdownStepKeeps(k: Kernel, e: Event)
    requires Inv(k) && Enabled(k, e) && (e.Abort? || e.TearDown? || e.Finish?)
    ensures Inv(Step(k, e))
  {
    var t := Step(k, e);
    if e.TearDown? {
      var keys := SelectedByAny(k, k.interests.Keys);
      TearDownEmpties(k);
      CancelKeysKeeps(k, keys);
      SameBut(CancelKeys(k, keys), t);
    } else if e.Finish? {
      NoEntriesNoHandlers(k);
    } else {
      SameBut(k, t);
    }
  }

  lemma {:induction false} NoEntriesNoHandlers(k: Kernel)
    requires Inv(k) && k.cancels == map[]
    ensures k.live == {} && k.subscribes == map[]
  {
  }

  lemma {:induction false} SameBut(k: Kernel, t: Kernel)
    requires Inv(k) && t == k.(phase := t.phase)
    requires t.phase == Aborted || k.cancels == map[]
    ensures Inv(t)
  {
  }

  lemma {:induction false} StepKeeps(k: Kernel, e: Event)
    requires Inv(k) && Enabled(k, e)
    ensures Inv(Step(k, e))
  {
    match e
    case Release(name) => ReleaseKeeps(k, name);
    case SubscribeTo(interest, o, ev, rider) =>
      SubscribeOrRideKeeps(k, interest, k.interests[interest], EventKey(interest, o, ev), rider);
    case WakeRider(rider) => WakeKeeps(k, rider);
    case Acknowledge(a) => SettleKeeps(k, a, true);
    case Fail(a) => SettleKeeps(k, a, false);
    case Unsubscribe(i, o, ev) => CancelKeysKeeps(k, {EventKey(i, o, ev)});
    case UnsubscribeAll(interest) => CancelKeysKeeps(k, Selected(k, interest));
    case Abort => ShutdownStepKeeps(k, e);
    case TearDown => ShutdownStepKeeps(k, e);
    case Finish => ShutdownStepKeeps(k, e);
    case Reserve(name) =>
      if MayReserve(k, name) {
        ReserveKeeps(k, name);
      }
    case Commit(name, handle) => CommitKeeps(k, name, handle);
    case Abandon(name) => AbandonKeeps(k, name);
  }

  // ---- Runs ----------------------------------------------------------------------------------

  ghost predicate IsRun(states: seq<Kernel>, events: seq<Event>) {
    && |states| == |events| + 1 && states[0] == Start()
    && forall i :: 0 <= i < |events| ==> StepAt(states, events, i)
  }

  ghost predicate StepAt(states: seq<Kernel>, events: seq<Event>, i: nat)
    requires |states| == |events| + 1 && i < |events|
  {
    Enabled(states[i], events[i]) && states[i + 1] == Step(states[i], events[i])
  }

  lemma {:induction false} RunKeepsInvariant(states: seq<Kernel>, events: seq<Event>, i: nat)
    requires IsRun(states, events) && i < |states|
    ensures Inv(states[i])
  {
    if i > 0 {
      assert StepAt(states, events, i - 1);
      RunKeepsInvariant(states, events, i - 1);
      StepKeeps(states[i - 1], events[i - 1]);
    }
  }

  /** In every state of every interleaving: a handler is live exactly when it is the one stored under
      its key; a key is pending exactly while that handler is unacknowledged; every subscribed key
      belongs to an interest still open under the same handle; slots stay within the cap. */
  lemma {:induction false} RunIsSound(states: seq<Kernel>, events: seq<Event>, i: nat)
    requires IsRun(states, events) && i < |states|
    ensures var k := states[i];
            && (forall a: Attempt :: a < |k.attempts| ==>
                  (a in k.live <==> k.attempts[a].key in k.cancels && k.cancels[k.attempts[a].key] == a))
            && (forall key :: key in k.subscribes <==> key in k.cancels && k.cancels[key] in k.waiting)
            && (forall key :: key in k.cancels ==> EntryInv(k, key))
            && (k.phase == Done ==> k.live == {})
            && |k.interests| + |k.pending| <= 64
  {
    RunKeepsInvariant(states, events, i);
    var k := states[i];
    forall key | key in k.cancels
      ensures key in k.subscribes <==> k.cancels[key] in k.waiting
    {
    }
    forall a: Attempt | a < |k.attempts|
      ensures a in k.live <==> k.attempts[a].key in k.cancels && k.cancels[k.attempts[a].key] == a
    {
    }
    if k.phase == Done {
      NoEntriesNoHandlers(k);
    }
  }

  // ---- What is awaited -----------------------------------------------------------------------

  ghost predicate Settles(e: Event, a: Attempt) { e == Acknowledge(a) || e == Fail(a) }

  lemma {:induction false} StepSettlesIff(k: Kernel, e: Event, a: Attempt)
    requires Enabled(k, e) && a < |Step(k, e).attempts|
    ensures a in Step(k, e).waiting <==> a >= |k.attempts| || (a in k.waiting && !Settles(e, a))
  {
  }

  /** In every run an attempt is awaited exactly until its acknowledgement has come or failed. */
  lemma {:induction false} AwaitedIff(states: seq<Kernel>, events: seq<Event>, i: nat, a: Attempt)
    requires IsRun(states, events) && i < |states| && a < |states[i].attempts|
    ensures a in states[i].waiting <==> forall m :: 0 <= m < i ==> !Settles(events[m], a)
  {
    assert i > 0;
    assert StepAt(states, events, i - 1);
    StepSettlesIff(states[i - 1], events[i - 1], a);
    if a < |states[i - 1].attempts| {
      AwaitedIff(states, events, i - 1, a);
    } else {
      forall m | 0 <= m < i ensures !Settles(events[m], a) {
        assert StepAt(states, events, m);
        RunAddsAttempts(states, events, m, i - 1);
      }
    }
  }

  /** A stored key is pending exactly until its handler has been acknowledged; a key without a handler
      never is. */
  lemma {:induction false} PendingIff(states: seq<Kernel>, events: seq<Event>, i: nat, key: string)
    requires IsRun(states, events) && i < |states|
    ensures var k := states[i];
            key in k.subscribes
            <==> key in k.cancels && forall m :: 0 <= m < i ==> !Settles(events[m], k.cancels[key])
  {
    RunIsSound(states, events, i);
    var k := states[i];
    if key in k.cancels {
      assert EntryInv(k, key);
      AwaitedIff(states, events, i, k.cancels[key]);
    }
  }

  /** A waiting call can go on exactly when the attempt it waits for has been acknowledged or has
      failed. */
  lemma {:induction false} RiderWakesIff(states: seq<Kernel>, events: seq<Event>, i: nat, rider: RiderId)
    requires IsRun(states, events) && i < |states| && rider in states[i].riders
    ensures Enabled(states[i], WakeRider(rider))
            <==> exists m :: 0 <= m < i && Settles(events[m], states[i].riders[rider].on)
  {
    RunKeepsInvariant(states, events, i);
    assert RiderInv(states[i], states[i].riders[rider]);
    AwaitedIff(states, events, i, states[i].riders[rider].on);
  }

  /** The call at step `i` leaves its key stored. It installs a handler exactly when there is none, and
      waits exactly for a stored handler that is not acknowledged yet. */
  lemma {:induction false} SubscribeStores(states: seq<Kernel>, events: seq<Event>, i: nat)
    requires IsRun(states, events) && i < |events| && events[i].SubscribeTo?
    ensures var k, t, interest, rider := states[i], states[i + 1], events[i].interest, events[i].rider;
            var key := EventKey(interest, events[i].object_, events[i].event);
            && interest in k.interests && key in t.cancels
            && (key in k.cancels ==> t.cancels == k.cancels && t.attempts == k.attempts)
            && (key !in k.cancels ==>
                  && t.cancels == k.cancels[key := |k.attempts|]
                  && t.attempts == k.attempts + [Subscription(interest, k.interests[interest], key)])
            && t.riders == if key in k.cancels && k.cancels[key] in k.waiting
                           then k.riders[rider := Rider(interest, k.interests[interest], key, k.cancels[key])]
                           else k.riders
  {
    assert StepAt(states, events, i);
    RunIsSound(states, events, i);
    RunKeepsInvariant(states, events, i);
  }

  /** The woken call at step `i` waits no more. It installs a handler exactly when there is none, the
      kernel is open and the interest is still the one it knew; otherwise nothing else changes. */
  lemma {:induction false} WakeDecides(states: seq<Kernel>, events: seq<Event>, i: nat)
    requires IsRun(states, events) && i < |events| && events[i].WakeRider?
    ensures events[i].rider in states[i].riders
    ensures var k, t := states[i], states[i + 1];
            var r := k.riders[events[i].rider];
            && t.riders == k.riders - {events[i].rider}
            && (if r.key !in k.cancels && k.phase == Open && r.interest in k.interests
                   && k.interests[r.interest] == r.handle
                then && t.cancels == k.cancels[r.key := |k.attempts|]
                     && t.attempts == k.attempts + [Subscription(r.interest, r.handle, r.key)]
                else t == k.(riders := t.riders))
  {
    assert StepAt(states, events, i);
    RunKeepsInvariant(states, events, i);
  }

  /** No other step installs a handler, or lets a call wait or go on. */
  lemma {:induction false} OnlyCallsInstall(states: seq<Kernel>, events: seq<Event>, i: nat)
    requires IsRun(states, events) && i < |events| && !events[i].SubscribeTo? && !events[i].WakeRider?
    ensures states[i + 1].attempts == states[i].attempts && states[i + 1].riders == states[i].riders
    ensures states[i + 1].live <= states[i].live && states[i + 1].cancels.Keys <= states[i].cancels.Keys
  {
    assert StepAt(states, events, i);
  }

  // ---- Interests, slots and phases over a run ------------------------------------------------

  ghost predicate IsOpen(k: Kernel, name: string, handle: Handle) {
    name in k.interests && k.interests[name] == handle
  }

  ghost predicate Closes(e: Event, name: string) { e == Release(name) || e == Finish }

  lemma {:induction false} StepClosesIff(k: Kernel, e: Event, name: string, handle: Handle)
    requires SlotsInv(k) && Enabled(k, e)
    ensures IsOpen(Step(k, e), name, handle)
            <==> e == Commit(name, handle) || (IsOpen(k, name, handle) && !Closes(e, name))
  {
  }

  /** In every run an interest is open under a handle exactly when it was committed under it and has
      not been released, nor the shutdown finished, since. */
  lemma {:induction false} InterestIsOpenIff(states: seq<Kernel>, events: seq<Event>, j: nat, name: string,
                                             handle: Handle)
    requires IsRun(states, events) && j < |states|
    ensures IsOpen(states[j], name, handle)
            <==> exists k: nat :: k < j && events[k] == Commit(name, handle)
                                  && forall m :: k < m < j ==> !Closes(events[m], name)
  {
    var flag := seq(|states|, m requires 0 <= m < |states| => IsOpen(states[m], name, handle));
    var sets := seq(|events|, m requires 0 <= m < |events| => events[m] == Commit(name, handle));
    var clears := seq(|events|, m requires 0 <= m < |events| => Closes(events[m], name));
    forall m | 0 <= m < j ensures Histories.FollowsAt(flag, sets, clears, m) {
      assert StepAt(states, events, m);
      RunKeepsInvariant(states, events, m);
      StepClosesIff(states[m], events[m], name, handle);
    }
    Histories.SetIffSetSince(flag, sets, clears, j);
    if flag[j] {
      var k: nat :| Histories.SetSince(sets, clears, k, j);
      assert events[k] == Commit(name, handle) && forall m :: k < m < j ==> clears[m] == Closes(events[m], name);
    }
    if k: nat :| k < j && events[k] == Commit(name, handle) && forall m :: k < m < j ==> !Closes(events[m], name) {
      assert Histories.SetSince(sets, clears, k, j);
    }
  }

  /** In every run a slot is reserved by a call exactly when its name is neither open nor reserved and
      fewer than 64 are; it then stays reserved until it is committed or given up. */
  lemma {:induction false} SlotIsReservedIff(states: seq<Kernel>, events: seq<Event>, i: nat, name: string)
    requires IsRun(states, events) && i < |events|
    ensures var k := states[i];
            name in states[i + 1].pending
            <==> if name in k.pending then !(events[i].Commit? && events[i].name == name) && events[i] != Abandon(name)
                 else events[i] == Reserve(name) && name !in k.interests && |k.interests| + |k.pending| < 64
  {
    assert StepAt(states, events, i);
  }

  /** In every run the phase is how far the shutdown has got. */
  lemma {:induction false} PhaseIsHistory(states: seq<Kernel>, events: seq<Event>, i: nat)
    requires IsRun(states, events) && i < |states|
    ensures states[i].phase == Open <==> Abort !in events[..i]
    ensures states[i].phase == Aborted <==> Abort in events[..i] && TearDown !in events[..i]
    ensures states[i].phase == Releasing <==> TearDown in events[..i] && Finish !in events[..i]
    ensures states[i].phase == Done <==> Finish in events[..i]
  {
    if i > 0 {
      assert StepAt(states, events, i - 1);
      PhaseIsHistory(states, events, i - 1);
      StepChangesPhase(states[i - 1], events[i - 1]);
      assert events[..i] == events[..i - 1] + [events[i - 1]];
    }
  }

  lemma {:induction false} StepChangesPhase(k: Kernel, e: Event)
    requires Enabled(k, e)
    ensures e == Abort ==> k.phase == Open && Step(k, e).phase == Aborted
    ensures e == TearDown ==> k.phase == Aborted && Step(k, e).phase == Releasing
    ensures e == Finish ==> k.phase == Releasing && Step(k, e).phase == Done
    ensures e != Abort && e != TearDown && e != Finish ==> Step(k, e).phase == k.phase
  {
  }

  // ---- A subscription ends only by its own end -----------------------------------------------

  /** The events that take attempt `a` from under `key`. */
  ghost predicate Ends(e: Event, key: string, a: Attempt) {
    match e
    case Fail(b) => b == a
    case Unsubscribe(i, o, ev) => EventKey(i, o, ev) == key
    case Release(name) => Prefix(name) <= key
    case UnsubscribeAll(name) => Prefix(name) <= key
    case TearDown => true
    case _ => false
  }

  ghost predicate Stored(k: Kernel, key: string, a: Attempt) { key in k.cancels && k.cancels[key] == a }

  /** One step takes a stored handler away exactly when it is one of those events. */
  lemma {:induction false} StepEndsIff(k: Kernel, e: Event, key: string, a: Attempt)
    requires Inv(k) && Enabled(k, e) && Stored(k, key, a)
    ensures Stored(Step(k, e), key, a) <==> !Ends(e, key, a)
  {
    if e.TearDown? {
      TearDownEmpties(k);
    } else {
      assert EntryInv(k, key);
      OtherStepEndsIff(k, e, key, a);
    }
  }

  lemma {:induction false} OtherStepEndsIff(k: Kernel, e: Event, key: string, a: Attempt)
    requires Enabled(k, e) && !e.TearDown? && Stored(k, key, a)
    requires a < |k.attempts| && k.attempts[a].key == key
    ensures Stored(Step(k, e), key, a) <==> !Ends(e, key, a)
  {
  }

  /** A handler that was taken away, or replaced, never comes back. */
  lemma {:induction false} StepBringsNoneBack(k: Kernel, e: Event, key: string, a: Attempt)
    requires Enabled(k, e) && a < |k.attempts| && !Stored(k, key, a)
    ensures !Stored(Step(k, e), key, a)
  {
  }

  lemma {:induction false} KeptOneMore(states: seq<Kernel>, events: seq<Event>, m: nat, key: string, a: Attempt)
    requires IsRun(states, events) && m < |events| && a < |states[m].attempts|
    ensures Stored(states[m + 1], key, a) <==> Stored(states[m], key, a) && !Ends(events[m], key, a)
  {
    var k, e := states[m], events[m];
    assert StepAt(states, events, m);
    if Stored(k, key, a) {
      RunKeepsInvariant(states, events, m);
      StepEndsIff(k, e, key, a);
    } else {
      StepBringsNoneBack(k, e, key, a);
    }
  }

  lemma {:induction false} StepAddsAttempts(k: Kernel, e: Event)
    requires Enabled(k, e)
    ensures k.attempts <= Step(k, e).attempts
  {
  }

  lemma {:induction false} StoredIsKnown(states: seq<Kernel>, events: seq<Event>, i: nat, key: string, a: Attempt)
    requires IsRun(states, events) && i < |states| && Stored(states[i], key, a)
    ensures a < |states[i].attempts| && states[i].attempts[a].key == key
  {
    RunKeepsInvariant(states, events, i);
    assert EntryInv(states[i], key);
  }

  lemma {:induction false} RunAddsAttempts(states: seq<Kernel>, events: seq<Event>, i: nat, m: nat)
    requires IsRun(states, events) && i <= m < |states|
    ensures |states[i].attempts| <= |states[m].attempts|
  {
    if i < m {
      RunAddsAttempts(states, events, i, m - 1);
      AttemptsAddedAt(states, events, m - 1);
    }
  }

  lemma {:induction false} AttemptsAddedAt(states: seq<Kernel>, events: seq<Event>, m: nat)
    requires IsRun(states, events) && m < |events|
    ensures |states[m].attempts| <= |states[m + 1].attempts|
  {
    assert StepAt(states, events, m);
    StepAddsAttempts(states[m], events[m]);
  }

  /** In every run, for all names: a handler stored under a key is still there exactly when nothing
      since was its failure, an unsubscribe of its key, a release or unsubscribe of an interest whose
      prefix selects the key, or the teardown. */
  lemma {:induction false} SubscriptionIsKeptIff(states: seq<Kernel>, events: seq<Event>, i: nat, j: nat,
                                                 key: string, a: Attempt)
    requires IsRun(states, events) && i <= j < |states| && Stored(states[i], key, a)
    ensures Stored(states[j], key, a) <==> forall m :: i <= m < j ==> !Ends(events[m], key, a)
  {
    StoredIsKnown(states, events, i, key, a);
    var flag := seq(|states|, m requires 0 <= m < |states| => Stored(states[m], key, a));
    var clears := seq(|events|, m requires 0 <= m < |events| => Ends(events[m], key, a));
    forall m | i <= m < j ensures Histories.KeepsAt(flag, clears, m) {
      RunAddsAttempts(states, events, i, m);
      KeptOneMore(states, events, m, key, a);
    }
    Histories.SetUnlessCleared(flag, clears, i, j);
    assert forall m :: i <= m < j ==> clears[m] == Ends(events[m], key, a);
  }

  /** The events that are this subscription's own end. */
  ghost predicate OwnEnd(e: Event, interest: string, key: string, a: Attempt) {
    match e
    case Release(name) => name == interest
    case UnsubscribeAll(name) => name == interest
    case _ => Ends(e, key, a)
  }

  ghost predicate NamesAreNulFree(events: seq<Event>) {
    forall i :: 0 <= i < |events| && events[i].Reserve? ==> NulFree(events[i].name)
  }

  lemma {:induction false} OpenNamesAreNulFree(states: seq<Kernel>, events: seq<Event>, i: nat)
    requires IsRun(states, events) && NamesAreNulFree(events) && i < |states|
    ensures forall n :: n in states[i].interests || n in states[i].pending ==> NulFree(n)
  {
    if i > 0 {
      assert StepAt(states, events, i - 1);
      OpenNamesAreNulFree(states, events, i - 1);
      StepOpensPending(states[i - 1], events[i - 1]);
    }
  }

  lemma {:induction false} StepOpensPending(k: Kernel, e: Event)
    requires Enabled(k, e)
    ensures forall n :: n in Step(k, e).interests ==> n in k.interests || n in k.pending
    ensures forall n :: n in Step(k, e).pending ==> n in k.pending || e == Reserve(n)
  {
  }

  /** With NUL-free interest names a subscription is lost only through its own end: in every such run
      it is still stored exactly when nothing since was its failure, an unsubscribe of its key, a
      release or unsubscribe of its own interest, or the teardown. */
  lemma {:induction false} OnlyItsOwnEnd(states: seq<Kernel>, events: seq<Event>, i: nat, j: nat, key: string,
                                         a: Attempt)
    requires IsRun(states, events) && NamesAreNulFree(events) && i <= j < |states| && Stored(states[i], key, a)
    ensures a < |states[i].attempts|
    ensures Stored(states[j], key, a)
            <==> forall m :: i <= m < j ==> !OwnEnd(events[m], states[i].attempts[a].interest, key, a)
  {
    RunKeepsInvariant(states, events, i);
    assert EntryInv(states[i], key);
    var interest := states[i].attempts[a].interest;
    OpenNamesAreNulFree(states, events, i);
    forall m | i <= m < j ensures Ends(events[m], key, a) <==> OwnEnd(events[m], interest, key, a) {
      OpenNamesAreNulFree(states, events, m);
      assert StepAt(states, events, m);
      if events[m].Release? {
        SelectsOwnOnly(states[i], key, events[m].name);
      } else if events[m].UnsubscribeAll? {
        SelectsOwnOnly(states[i], key, events[m].interest);
      }
    }
    SubscriptionIsKeptIff(states, events, i, j, key, a);
  }

  /** The events that end the subscription of this very triple. */
  ghost predicate EndsTriple(e: Event, i: string, o: string, ev: string, a: Attempt) {
    match e
    case Fail(b) => b == a
    case Unsubscribe(i', o', ev') => i' == i && o' == o && ev' == ev
    case Release(name) => name == i
    case UnsubscribeAll(name) => name == i
    case TearDown => true
    case _ => false
  }

  /** A subscription whose three names are free of NUL, in a run whose interest names are, is untouched
      by every other subscription: only its failure, an unsubscribe of the same triple, a release or
      unsubscribe of its own interest, or the teardown takes it away. */
  lemma {:induction false} OnlyItsOwnTriple(states: seq<Kernel>, events: seq<Event>, i: nat, j: nat, interest: string,
                                            o: string, ev: string, a: Attempt)
    requires IsRun(states, events) && NamesAreNulFree(events) && i <= j < |states|
    requires NulFree(interest) && NulFree(o) && NulFree(ev)
    requires Stored(states[i], EventKey(interest, o, ev), a)
    ensures Stored(states[j], EventKey(interest, o, ev), a)
            <==> forall m :: i <= m < j ==> !EndsTriple(events[m], interest, o, ev, a)
  {
    var key := EventKey(interest, o, ev);
    OnlyItsOwnEnd(states, events, i, j, key, a);
    RunKeepsInvariant(states, events, i);
    InterestOfNulFree(states[i], interest, o, ev);
    forall m | i <= m < j ensures OwnEnd(events[m], interest, key, a) <==> EndsTriple(events[m], interest, o, ev, a) {
      OwnEndIsOfTriple(events[m], interest, o, ev, a);
    }
  }

  lemma {:induction false} InterestOfNulFree(k: Kernel, interest: string, o: string, ev: string)
    requires Inv(k) && EventKey(interest, o, ev) in k.cancels && NulFree(interest) && NulFree(o) && NulFree(ev)
    ensures InterestOf(k, EventKey(interest, o, ev)) == interest
  {
    var s := k.attempts[k.cancels[EventKey(interest, o, ev)]];
    var o': string, ev': string :| s.key == EventKey(s.interest, o', ev');
    NulFreeKeyIsUnique(interest, o, ev, s.interest, o', ev');
  }

  lemma {:induction false} OwnEndIsOfTriple(e: Event, i: string, o: string, ev: string, a: Attempt)
    requires NulFree(i) && NulFree(o) && NulFree(ev)
    ensures OwnEnd(e, i, EventKey(i, o, ev), a) <==> EndsTriple(e, i, o, ev, a)
  {
    if e.Unsubscribe? && EventKey(e.interest, e.object_, e.event) == EventKey(i, o, ev) {
      NulFreeKeyIsUnique(i, o, ev, e.interest, e.object_, e.event);
    }
  }

  lemma {:induction false} SelectsOwnOnly(k: Kernel, key: string, name: string)
    requires Inv(k) && key in k.cancels && NulFree(InterestOf(k, key)) && NulFree(name)
    ensures Prefix(name) <= key <==> name == InterestOf(k, key)
  {
    var s := k.attempts[k.cancels[key]];
    var o: string, e: string :| s.key == EventKey(s.interest, o, e);
    PrefixSelects(s.interest, o, e, name);
  }

  // ---- Releasing one interest cancels another's subscription ---------------------------------

  /** A run that ends by releasing `x` and loses a live subscription of `y`, which stays open. */
  ghost predicate CancelsAcross(states: seq<Kernel>, events: seq<Event>, x: string, y: string, key: string) {
    && IsRun(states, events) && events != []
    && var n := |events|;
       && events[n - 1] == Release(x) && key in states[n - 1].cancels
       && states[n - 1].cancels[key] < |states[n - 1].attempts|
       && states[n - 1].attempts[states[n - 1].cancels[key]].interest == y
       && key !in states[n].cancels && y in states[n].interests
  }

  /** Releasing one interest can cancel a subscription of another exactly when one of the two names
      starts with the other and a NUL. */
  lemma {:induction false} CancelsAcrossIff(x: string, y: string)
    requires x != y
    ensures (exists states: seq<Kernel>, events: seq<Event>, key: string :: CancelsAcross(states, events, x, y, key))
            <==> Interferes(x, y)
  {
    if Interferes(x, y) {
      var o := SelectedObject(y, x);
      var states, events := ReleaseCancelsAnother(x, y, o, "");
      assert CancelsAcross(states, events, x, y, EventKey(y, o, ""));
    } else {
      forall states: seq<Kernel>, events: seq<Event>, key: string ensures !CancelsAcross(states, events, x, y, key) {
        NothingAcross(states, events, x, y, key);
      }
    }
  }

  lemma {:induction false} NothingAcross(states: seq<Kernel>, events: seq<Event>, x: string, y: string, key: string)
    requires x != y && !Interferes(x, y)
    ensures !CancelsAcross(states, events, x, y, key)
  {
    if CancelsAcross(states, events, x, y, key) {
      var n := |events| - 1;
      assert StepAt(states, events, n);
      RunKeepsInvariant(states, events, n);
      KeyBelongs(states[n], key, x);
    }
  }

  /** The run: open both, subscribe under `y`, release `x`. */
  lemma {:induction false} ReleaseCancelsAnother(x: string, y: string, o: string, e: string)
    returns (states: seq<Kernel>, events: seq<Event>)
    requires x != y && Prefix(x) <= EventKey(y, o, e)
    ensures CancelsAcross(states, events, x, y, EventKey(y, o, e))
  {
    var k1 := Start().(interests := map[x := 0]);
    var k2 := k1.(interests := map[x := 0, y := 1]);
    assert k1.interests[y := 1] == k2.interests;
    states, events := [Start()], [];
    states, events := RunOpens(states, events, x, 0);
    assert states[|events|] == k1;
    states, events := RunOpens(states, events, y, 1);
    assert states[|events|] == k2;
    RunOneMore(states, events, SubscribeTo(y, o, e, 0));
    var k3 := Step(k2, SubscribeTo(y, o, e, 0));
    states, events := states + [k3], events + [SubscribeTo(y, o, e, 0)];
    RunOneMore(states, events, Release(x));
    states, events := states + [ReleaseInterest(k3, x)], events + [Release(x)];
    assert EventKey(y, o, e) in Selected(k3, x);
  }

  lemma {:induction false} RunOneMore(states: seq<Kernel>, events: seq<Event>, e: Event)
    requires IsRun(states, events) && Enabled(states[|events|], e)
    ensures IsRun(states + [Step(states[|events|], e)], events + [e])
  {
    var n, t, f := |events|, states + [Step(states[|events|], e)], events + [e];
    forall i | 0 <= i < |f| ensures StepAt(t, f, i) {
      assert i < n ==> StepAt(states, events, i);
    }
  }

  lemma {:induction false} RunOpens(states: seq<Kernel>, events: seq<Event>, name: string, handle: Handle)
    returns (states': seq<Kernel>, events': seq<Event>)
    requires IsRun(states, events)
    requires var k := states[|events|]; k.phase == Open && MayReserve(k, name) && k.pending == {}
    ensures IsRun(states', events')
    ensures var k := states[|events|]; states'[|events'|] == k.(interests := k.interests[name := handle])
  {
    var k := states[|events|];
    OpensOne(k, name, handle);
    RunOneMore(states, events, Reserve(name));
    states', events' := states + [k.(pending := {name})], events + [Reserve(name)];
    RunOneMore(states', events', Commit(name, handle));
    states' := states' + [k.(interests := k.interests[name := handle])];
    events' := events' + [Commit(name, handle)];
  }

  lemma {:induction false} OpensOne(k: Kernel, name: string, handle: Handle)
    requires k.phase == Open && MayReserve(k, name) && k.pending == {}
    ensures Step(k, Reserve(name)) == k.(pending := {name})
    ensures Step(k.(pending := {name}), Commit(name, handle)) == k.(interests := k.interests[name := handle])
  {
  }

  // ---- The kernel object ---------------------------------------------------------------------

  datatype Answer = NewSubscription(attempt: Attempt) | AlreadySubscribed | Waiting | Failed

  /** The kernel is shutting down, or the interest a call waits for is closed or another one now. */
  predicate Gone(k: Kernel, r: Rider) {
    k.phase != Open || r.interest !in k.interests || k.interests[r.interest] != r.handle
  }

  class GatewayKernel {
    var interests: map<string, Handle>
    var pendingInterests: set<string>
    var eventCancels: map<string, Attempt>
    var eventSubscribes: map<string, Attempt>
    var live: set<Attempt>
    var waiting: set<Attempt>
    var attempts: seq<Subscription>
    var riders: map<RiderId, Rider>
    var phase: Phase

    ghost function View(): Kernel
      reads this
    {
      Kernel(interests, pendingInterests, eventCancels, eventSubscribes, live, waiting, attempts, riders, phase)
    }

    constructor ()
      ensures View() == Start()
    {
      interests, pendingInterests, eventCancels, eventSubscribes := map[], {}, map[], map[];
      live, waiting, attempts, riders, phase := {}, {}, [], map[], Open;
    }

    method ReserveInterestSlot(name: string) returns (reserved: bool)
      requires phase == Open
      modifies this
      ensures View() == Step(old(View()), Reserve(name))
      ensures reserved <==> && name !in old(interests) && name !in old(pendingInterests)
                            && |old(interests)| + |old(pendingInterests)| < 64
      ensures pendingInterests == if reserved then old(pendingInterests) + {name} else old(pendingInterests)
    {
      if name in interests || name in pendingInterests {
        return false;
      }
      if |interests| + |pendingInterests| >= INTEREST_CAP {
        return false;
      }
      pendingInterests := pendingInterests + {name};
      return true;
    }

    method CommitInterest(name: string, handle: Handle)
      requires Enabled(View(), Commit(name, handle))
      modifies this
      ensures View() == Step(old(View()), Commit(name, handle))
    {
      pendingInterests := pendingInterests - {name};
      interests := interests[name := handle];
    }

    /** Giving up a reservation that was already committed or given up changes nothing. */
    method ReleaseInterestSlot(name: string)
      modifies this
      ensures View() == if name in old(pendingInterests) then Step(old(View()), Abandon(name)) else old(View())
    {
      pendingInterests := pendingInterests - {name};
    }

    /** The call up to its first await; an interest that is not open, or an object outside its
        match-set, is refused and changes nothing. */
    method SubscribeToEvent(interest: string, object_: string, event: string, inMatchSet: bool, rider: RiderId)
      returns (answer: Answer)
      requires phase == Open && rider !in riders
      modifies this
      ensures interest in old(interests) && inMatchSet
              ==> View() == Step(old(View()), SubscribeTo(interest, object_, event, rider))
      ensures answer.Failed? <==> !(interest in old(interests) && inMatchSet)
      ensures answer.Failed? ==> View() == old(View())
      ensures answer.AlreadySubscribed? ==> EventKey(interest, object_, event) in eventCancels
    {
      if interest !in interests || !inMatchSet {
        return Failed;
      }
      answer := TrySubscribe(interest, interests[interest], EventKey(interest, object_, event), rider);
    }

    method TrySubscribe(interest: string, handle: Handle, key: string, rider: RiderId) returns (answer: Answer)
      modifies this
      ensures View() == SubscribeOrRide(old(View()), interest, handle, key, rider)
      ensures answer == if key in old(eventSubscribes) then Waiting
                        else if key in old(eventCancels) then AlreadySubscribed
                        else NewSubscription(|old(attempts)|)
    {
      if key in eventSubscribes {
        riders := riders[rider := Rider(interest, handle, key, eventSubscribes[key])];
        return Waiting;
      }
      if key in eventCancels {
        return AlreadySubscribed;
      }
      var attempt := |attempts|;
      attempts := attempts + [Subscription(interest, handle, key)];
      live := live + {attempt};
      eventCancels := eventCancels[key := attempt];
      eventSubscribes := eventSubscribes[key := attempt];
      waiting := waiting + {attempt};
      return NewSubscription(attempt);
    }

    /** A rider wakes after the attempt it waited on has settled. It answers "already subscribed"
        exactly while a handler is stored under its key, and fails exactly when there is none and the
        kernel is shutting down or the interest is not the one it knew. */
    method ResumeRider(rider: RiderId) returns (answer: Answer)
      requires Enabled(View(), WakeRider(rider))
      modifies this
      ensures View() == Step(old(View()), WakeRider(rider))
      ensures answer.AlreadySubscribed? <==> old(riders)[rider].key in old(eventCancels)
      ensures answer.Failed? <==> old(riders)[rider].key !in old(eventCancels) && Gone(old(View()), old(riders)[rider])
      ensures answer.NewSubscription? ==> Stored(View(), old(riders)[rider].key, answer.attempt)
    {
      var r := riders[rider];
      riders := riders - {rider};
      if r.key in eventCancels {
        return AlreadySubscribed;
      }
      if phase != Open {
        return Failed;
      }
      if r.interest !in interests || interests[r.interest] != r.handle {
        return Failed;
      }
      answer := TrySubscribe(r.interest, r.handle, r.key, rider);
    }

    /** The call after its acknowledgement came or failed. */
    method ResumeSubscribe(attempt: Attempt, succeeded: bool)
      requires Enabled(View(), if succeeded then Acknowledge(attempt) else Fail(attempt))
      modifies this
      ensures View() == Step(old(View()), if succeeded then Acknowledge(attempt) else Fail(attempt))
      ensures waiting == old(waiting) - {attempt} && attempts == old(attempts)
      ensures var key := attempts[attempt].key;
              && (key in eventSubscribes ==> eventSubscribes[key] != attempt)
              && (succeeded ==> eventCancels == old(eventCancels) && live == old(live))
              && (!succeeded ==> attempt !in live && !Stored(View(), key, attempt))
    {
      var key := attempts[attempt].key;
      if key in eventSubscribes && eventSubscribes[key] == attempt {
        eventSubscribes := eventSubscribes - {key};
      }
      if !succeeded {
        live := live - {attempt};
        if key in eventCancels && eventCancels[key] == attempt {
          eventCancels := eventCancels - {key};
        }
      }
      waiting := waiting - {attempt};
    }

    method UnsubscribeFromEvent(interest: string, object_: string, event: string) returns (removed: bool)
      modifies this
      ensures View() == Step(old(View()), Unsubscribe(interest, object_, event))
      ensures removed <==> EventKey(interest, object_, event) in old(eventCancels)
    {
      var key := EventKey(interest, object_, event);
      if key !in eventCancels {
        return false;
      }
      CancelKey(key);
      return true;
    }

    /** Runs the stored cancel function and drops the key from both maps. */
    method CancelKey(key: string)
      requires key in eventCancels
      modifies `live, `eventCancels, `eventSubscribes
      ensures View() == CancelKeys(old(View()), {key})
    {
      live := live - {eventCancels[key]};
      eventCancels := eventCancels - {key};
      eventSubscribes := eventSubscribes - {key};
    }

    /** Cancels and drops every entry whose key starts with the interest's prefix. */
    method CancelByPrefix(interest: string) returns (count: nat)
      modifies `live, `eventCancels, `eventSubscribes
      ensures View() == CancelKeys(old(View()), Selected(old(View()), interest))
      ensures count == |Selected(old(View()), interest)|
    {
      count := 0;
      ghost var start := View();
      var todo := eventCancels.Keys;
      NothingCancelled(start, interest);
      while todo != {}
        invariant Progress(start, View(), interest, todo, count)
      {
        var key :| key in todo;
        ghost var now := View();
        if Prefix(interest) <= key {
          CancelRound(start, now, interest, todo, count, key);
          CancelKey(key);
          count := count + 1;
        } else {
          SkipRound(start, now, interest, todo, count, key);
        }
        todo := todo - {key};
      }
      AllCancelled(start, View(), interest, count);
    }

    /** The synchronous part of closing an interest. */
    method CloseInterest(name: string)
      requires Enabled(View(), Release(name))
      modifies this
      ensures View() == Step(old(View()), Release(name))
    {
      var count := CancelByPrefix(name);
      interests := interests - {name};
    }

    /** Shutdown up to its first await; a second call does nothing. */
    method BeginShutdown()
      modifies this
      ensures View() == if old(phase) == Open then Step(old(View()), Abort) else old(View())
    {
      if phase != Open {
        return;
      }
      phase := Aborted;
    }

    /** Shutdown after every interest has been released. */
    method FinishShutdown()
      requires phase == Releasing
      modifies this
      ensures View() == Step(old(View()), Finish)
    {
      interests := map[];
      phase := Done;
    }

    /** Shutdown after the client is known: tear down the events of every open interest. */
    method TearDownAll()
      requires Enabled(View(), TearDown)
      modifies this
      ensures View() == Step(old(View()), TearDown)
    {
      ghost var start := View();
      var todo := interests.Keys;
      while todo != {}
        invariant todo <= interests.Keys && interests == start.interests
        invariant View() == CancelKeys(start, SelectedByAny(start, interests.Keys - todo))
      {
        var name :| name in todo;
        ghost var torn := interests.Keys - todo;
        CancelOneInterestMore(start, torn, name);
        var count := CancelByPrefix(name);
        todo := todo - {name};
        assert interests.Keys - todo == torn + {name};
      }
      assert interests.Keys - todo == interests.Keys;
      phase := Releasing;
    }
  }

  /** The selected keys among those already looked at are cancelled and counted. */
  ghost predicate Progress(start: Kernel, now: Kernel, interest: string, todo: set<string>, count: nat) {
    var cancelled := Selected(start, interest) - todo;
    todo <= start.cancels.Keys && now == CancelKeys(start, cancelled) && count == |cancelled|
  }

  lemma {:induction false} NothingCancelled(k: Kernel, interest: string)
    ensures Progress(k, k, interest, k.cancels.Keys, 0)
  {
    CancelNone(k);
  }

  lemma {:induction false} CancelNone(k: Kernel)
    ensures CancelKeys(k, {}) == k
  {
  }

  lemma {:induction false} CancelRound(start: Kernel, now: Kernel, interest: string, todo: set<string>, count: nat,
                                       key: string)
    requires Progress(start, now, interest, todo, count) && key in todo && Prefix(interest) <= key
    ensures key in now.cancels && Progress(start, CancelKeys(now, {key}), interest, todo - {key}, count + 1)
  {
    var cancelled := Selected(start, interest) - todo;
    assert Selected(start, interest) - (todo - {key}) == cancelled + {key};
    CancelTwice(start, cancelled, {key});
  }

  lemma {:induction false} SkipRound(start: Kernel, now: Kernel, interest: string, todo: set<string>, count: nat,
                                     key: string)
    requires Progress(start, now, interest, todo, count) && key in todo && !(Prefix(interest) <= key)
    ensures Progress(start, now, interest, todo - {key}, count)
  {
    assert Selected(start, interest) - (todo - {key}) == Selected(start, interest) - todo;
  }

  lemma {:induction false} AllCancelled(start: Kernel, now: Kernel, interest: string, count: nat)
    requires Progress(start, now, interest, {}, count)
    ensures now == CancelKeys(start, Selected(start, interest)) && count == |Selected(start, interest)|
  {
  }

  lemma {:induction false} CancelOneInterestMore(k: Kernel, torn: set<string>, name: string)
    ensures var t := CancelKeys(k, SelectedByAny(k, torn));
            CancelKeys(k, SelectedByAny(k, torn + {name})) == CancelKeys(t, Selected(t, name))
  {
    var keys := SelectedByAny(k, torn);
    var t := CancelKeys(k, keys);
    var more := Selected(t, name);
    assert SelectedByAny(k, torn + {name}) == keys + more;
    CancelTwice(k, keys, more);
  }

  lemma {:induction false} CancelTwice(k: Kernel, a: set<string>, b: set<string>)
    ensures CancelKeys(CancelKeys(k, a), b) == CancelKeys(k, a + b)
  {
  }
}
