/**
 * The registry of subscriptions by track name. The first subscriber of a track
 * gets a pending token and later ones wait on the entry's promise; a publisher may
 * replace the entry meanwhile, and a token acts only on the entry it was made for.
 */
module SubscriptionRegistries {
  import opened Common

  type Name = string

  // A forwarder is created together with the promise of its entry and, for a first
  // subscriber, the pending token; one number, never reused, names all three.
  type Ident = nat

  datatype Entry = Entry(id: Ident, upstream: Option<nat>, handle: Option<nat>, isPublish: bool)

  datatype Status = Pending | Fulfilled | Failed | Broken

  datatype Promise = Promise(name: Name, status: Status)

  datatype State = State(
    entries: map<Name, Entry>, promises: map<Ident, Promise>, tokens: map<Ident, Name>, waiters: map<nat, Ident>, next: Ident)

  const EMPTY := State(map[], map[], map[], map[], 0)

  predicate IsPending(s: State, id: Ident) {
    id in s.promises && s.promises[id].status == Pending
  }

  // The forwarder behind the token is still the one in the entry of its name.
  predicate Current(s: State, token: Ident) {
    token in s.tokens && s.tokens[token] in s.entries && s.entries[s.tokens[token]].id == token
  }

  // A promise is fulfilled, failed or broken at most once: only a pending one can be.
  function Resolve(s: State, id: Ident, status: Status): State
    requires IsPending(s, id)
  {
    s.(promises := s.promises[id := s.promises[id].(status := status)])
  }

  // Erasing an entry destroys its promise, which breaks it if nobody fulfilled it.
  function Erase(s: State, name: Name): State {
    if name !in s.entries then s
    else
      var id := s.entries[name].id;
      var erased := s.(entries := s.entries - {name});
      if IsPending(s, id) then Resolve(erased, id, Broken) else erased
  }

  // ---- Operations ----------------------------------------------------------------------

  // The first subscriber creates the entry and holds its token; a later one waits.
  function GetOrCreateFromSubscribe(s: State, name: Name): State {
    var k := s.next;
    if name !in s.entries then
      State(s.entries[name := Entry(k, None, None, false)], s.promises[k := Promise(name, Pending)],
            s.tokens[k := name], s.waiters, k + 1)
    else
      s.(waiters := s.waiters[k := s.entries[name].id], next := k + 1)
  }

  function CompleteSubscription(s: State, token: Ident, handle: nat, session: nat): State
    requires token in s.tokens && (Current(s, token) ==> IsPending(s, token))
  {
    var used := s.(tokens := s.tokens - {token});
    if !Current(s, token) then used
    else
      var name := s.tokens[token];
      var e := s.entries[name].(handle := Some(handle), upstream := Some(session));
      Resolve(used.(entries := used.entries[name := e]), token, Fulfilled)
  }

  function FailAndRemove(s: State, token: Ident): State
    requires token in s.tokens && (Current(s, token) ==> IsPending(s, token))
  {
    var used := s.(tokens := s.tokens - {token});
    if !Current(s, token) then used
    else Resolve(used.(entries := used.entries - {s.tokens[token]}), token, Failed)
  }

  // A publisher evicts whatever entry there was and creates a ready one.
  function CreateFromPublish(s: State, name: Name, session: nat, handle: nat): State {
    var e := Erase(s, name);
    e.(entries := e.entries[name := Entry(e.next, Some(session), Some(handle), true)],
       promises := e.promises[e.next := Promise(name, Fulfilled)], next := e.next + 1)
  }

  function OnPublisherTerminated(s: State, name: Name, noSubscribers: bool): State {
    if name !in s.entries then s
    else if noSubscribers then Erase(s, name)
    else s.(entries := s.entries[name := s.entries[name].(handle := None, upstream := None)])
  }

  // ---- What every interleaving keeps ------------------------------------------------------

  ghost predicate RegistryOk(s: State) {
    && (forall n :: n in s.entries ==> s.entries[n].id in s.promises && s.promises[s.entries[n].id].name == n)
    && (forall p :: p in s.promises ==> p < s.next)
    && (forall t :: t in s.tokens ==> t in s.promises && s.promises[t].name == s.tokens[t])
    && (forall w :: w in s.waiters ==> s.waiters[w] in s.promises && w < s.next)
    // every pending promise is that of an entry, and an entry is pending iff it has a live token
    && (forall p :: IsPending(s, p) ==> s.promises[p].name in s.entries && s.entries[s.promises[p].name].id == p)
    && (forall n :: n in s.entries ==> (IsPending(s, s.entries[n].id) <==> s.entries[n].id in s.tokens))
    && (forall n :: n in s.entries && s.entries[n].isPublish ==> s.entries[n].id !in s.tokens)
  }

  lemma FirstSubscribeKeeps(s: State, name: Name)
    requires RegistryOk(s) && name !in s.entries
    ensures RegistryOk(GetOrCreateFromSubscribe(s, name))
  {
  }

  lemma SubscribeKeeps(s: State, name: Name)
    requires RegistryOk(s)
    ensures RegistryOk(GetOrCreateFromSubscribe(s, name))
  {
    if name !in s.entries {
      FirstSubscribeKeeps(s, name);
    }
  }

  lemma CompleteKeeps(s: State, token: Ident, handle: nat, session: nat)
    requires RegistryOk(s) && token in s.tokens
    ensures Current(s, token) ==> IsPending(s, token)
    ensures RegistryOk(CompleteSubscription(s, token, handle, session))
  {
  }

  lemma FailKeeps(s: State, token: Ident)
    requires RegistryOk(s) && token in s.tokens
    ensures Current(s, token) ==> IsPending(s, token)
    ensures RegistryOk(FailAndRemove(s, token))
  {
  }

  lemma EraseKeeps(s: State, name: Name)
    requires RegistryOk(s)
    ensures RegistryOk(Erase(s, name))
  {
  }

  lemma PublishKeeps(s: State, name: Name, session: nat, handle: nat)
    requires RegistryOk(s)
    ensures RegistryOk(CreateFromPublish(s, name, session, handle))
  {
    EraseKeeps(s, name);
  }

  lemma TerminateKeeps(s: State, name: Name, noSubscribers: bool)
    requires RegistryOk(s)
    ensures RegistryOk(OnPublisherTerminated(s, name, noSubscribers))
  {
    EraseKeeps(s, name);
  }

  // ---- What the operations leave behind ----------------------------------------------------

  // No entry but that of the name changes.
  ghost predicate OtherEntries(s: State, t: State, name: Name) {
    forall m :: m != name ==> (m in t.entries <==> m in s.entries) && (m in s.entries ==> t.entries[m] == s.entries[m])
  }

  // The promise of the entry under the name breaks if it was pending; the others stay.
  ghost predicate PromisesAfterErase(s: State, t: State, name: Name) {
    forall p :: p in s.promises ==>
      && p in t.promises && t.promises[p].name == s.promises[p].name
      && t.promises[p].status ==
         if name in s.entries && s.entries[name].id == p && s.promises[p].status == Pending then Broken
         else s.promises[p].status
  }

  // No entry, promise, token or waiter had the number before.
  ghost predicate Fresh(s: State, id: Ident) {
    && id !in s.promises && id !in s.tokens && id !in s.waiters
    && (forall n :: n in s.entries ==> s.entries[n].id != id)
    && (forall w :: w in s.waiters ==> s.waiters[w] != id)
  }

  // The name has no entry any more.
  ghost predicate Erased(s: State, t: State, name: Name) {
    && name !in t.entries && OtherEntries(s, t, name)
    && t.promises.Keys == s.promises.Keys && PromisesAfterErase(s, t, name)
    && t.tokens == s.tokens && t.waiters == s.waiters
  }

  lemma EraseMeans(s: State, name: Name)
    requires RegistryOk(s)
    ensures Erased(s, Erase(s, name), name)
  {
  }

  // The name has a new entry that is ready, in place of the one it had.
  ghost predicate Published(s: State, t: State, name: Name, session: nat, handle: nat) {
    && name in t.entries && OtherEntries(s, t, name)
    && var e := t.entries[name];
    && e.upstream == Some(session) && e.handle == Some(handle) && e.isPublish && Fresh(s, e.id)
    && t.promises.Keys == s.promises.Keys + {e.id} && t.promises[e.id] == Promise(name, Fulfilled)
    && PromisesAfterErase(s, t, name) && t.tokens == s.tokens && t.waiters == s.waiters
  }

  /**
   * A publisher leaves a ready entry under its name, whatever was there; a waiting
   * entry it replaces breaks its promise, and nothing else changes.
   */
  lemma PublishedIsReady(s: State, name: Name, session: nat, handle: nat)
    requires RegistryOk(s)
    ensures Published(s, CreateFromPublish(s, name, session, handle), name, session, handle)
  {
    EraseMeans(s, name);
  }

  // The name has a new waiting entry with a token, or there is one more waiter for it.
  ghost predicate Subscribed(s: State, t: State, name: Name, id: Ident) {
    && Fresh(s, id)
    && if name in s.entries then t == s.(waiters := s.waiters[id := s.entries[name].id], next := t.next)
       else
         t == State(s.entries[name := Entry(id, None, None, false)], s.promises[id := Promise(name, Pending)],
                    s.tokens[id := name], s.waiters, t.next)
  }

  // The entry is gone, or stays for its subscribers without session and handle.
  ghost predicate Terminated(s: State, t: State, name: Name, noSubscribers: bool) {
    if name !in s.entries then t == s
    else if noSubscribers then Erased(s, t, name)
    else
      t == s.(entries := s.entries[name := Entry(s.entries[name].id, None, None, s.entries[name].isPublish)])
  }

  // ---- Every interleaving -----------------------------------------------------------------

  datatype Action =
    | Subscribe(name: Name)
    | Complete(token: Ident, handle: nat, session: nat)
    | Abandon(token: Ident)
    | Publish(name: Name, session: nat, handle: nat)
    | Terminate(name: Name, noSubscribers: bool)
    | Remove(name: Name)
    | Resume(waiter: nat)

  // A token is used once, to complete or to be abandoned; a waiter resumes once its
  // promise is settled.
  predicate Allowed(s: State, a: Action) {
    match a
    case Complete(t, _, _) => t in s.tokens
    case Abandon(t) => t in s.tokens
    case Resume(w) => w in s.waiters && !IsPending(s, s.waiters[w])
    case _ => true
  }

  ghost function Step(s: State, a: Action): State
    requires RegistryOk(s) && Allowed(s, a)
  {
    match a
    case Subscribe(n) => GetOrCreateFromSubscribe(s, n)
    case Complete(t, h, u) => CompleteKeeps(s, t, h, u); CompleteSubscription(s, t, h, u)
    case Abandon(t) => FailKeeps(s, t); FailAndRemove(s, t)
    case Publish(n, u, h) => CreateFromPublish(s, n, u, h)
    case Terminate(n, e) => OnPublisherTerminated(s, n, e)
    case Remove(n) => Erase(s, n)
    case Resume(w) => s.(waiters := s.waiters - {w})
  }

  lemma StepKeeps(s: State, a: Action)
    requires RegistryOk(s) && Allowed(s, a)
    ensures RegistryOk(Step(s, a))
  {
    match a
    case Subscribe(n) => SubscribeKeeps(s, n);
    case Complete(t, h, u) => CompleteKeeps(s, t, h, u);
    case Abandon(t) => FailKeeps(s, t);
    case Publish(n, u, h) => PublishKeeps(s, n, u, h);
    case Terminate(n, e) => TerminateKeeps(s, n, e);
    case Remove(n) => EraseKeeps(s, n);
    case Resume(w) =>
  }

  ghost predicate Permitted(s: State, actions: seq<Action>)
    requires RegistryOk(s)
    decreases |actions|
  {
    |actions| == 0 ||
    (Allowed(s, actions[0]) && (StepKeeps(s, actions[0]); Permitted(Step(s, actions[0]), actions[1..])))
  }

  ghost function RunAll(s: State, actions: seq<Action>): (r: State)
    requires RegistryOk(s) && Permitted(s, actions)
    ensures RegistryOk(r)
    decreases |actions|
  {
    if |actions| == 0 then s else StepKeeps(s, actions[0]); RunAll(Step(s, actions[0]), actions[1..])
  }

  // Erasing and resolving touch pending promises only, and new promises get new numbers.
  lemma SettledErase(s: State, name: Name, p: Ident)
    requires p in s.promises && !IsPending(s, p)
    ensures p in Erase(s, name).promises && Erase(s, name).promises[p] == s.promises[p]
  {
  }

  // A settled promise keeps its outcome through a step.
  lemma SettledStep(s: State, a: Action, p: Ident)
    requires RegistryOk(s) && Allowed(s, a) && p in s.promises && !IsPending(s, p)
    ensures var t := Step(s, a); p in t.promises && t.promises[p] == s.promises[p]
  {
    match a
    case Publish(n, u, h) => SettledErase(s, n, p);
    case Terminate(n, e) => SettledErase(s, n, p);
    case Remove(n) => SettledErase(s, n, p);
    case Complete(t, h, u) => CompleteKeeps(s, t, h, u);
    case Abandon(t) => FailKeeps(s, t);
    case _ =>
  }

  /** No promise is fulfilled twice: in every interleaving a settled promise keeps its outcome. */
  lemma {:induction false} SettledOnce(s: State, actions: seq<Action>, p: Ident)
    requires RegistryOk(s) && Permitted(s, actions) && p in s.promises && !IsPending(s, p)
    ensures var t := RunAll(s, actions); p in t.promises && t.promises[p] == s.promises[p]
    decreases |actions|
  {
    if |actions| > 0 {
      StepKeeps(s, actions[0]);
      SettledStep(s, actions[0], p);
      SettledOnce(Step(s, actions[0]), actions[1..], p);
    }
  }

  /** In every interleaving an entry still waiting has exactly one live token, and nobody waits for anything else. */
  lemma OneTokenPerPendingEntry(actions: seq<Action>)
    requires Permitted(EMPTY, actions)
    ensures var s := RunAll(EMPTY, actions);
      && (forall n, t :: n in s.entries && IsPending(s, s.entries[n].id) ==>
            (Current(s, t) && s.tokens[t] == n <==> t == s.entries[n].id))
      && (forall w :: w in s.waiters && IsPending(s, s.waiters[w]) ==> Current(s, s.waiters[w]))
  {
    var s := RunAll(EMPTY, actions);
    assert RegistryOk(s);
  }

  // A token that is not that of an entry does not become so: identifiers are not reused.
  lemma StaleStep(s: State, a: Action, token: Ident)
    requires RegistryOk(s) && Allowed(s, a) && token < s.next && !Current(s, token)
    ensures token < Step(s, a).next && !Current(Step(s, a), token)
  {
  }

  lemma {:induction false} StaleForever(s: State, actions: seq<Action>, token: Ident)
    requires RegistryOk(s) && Permitted(s, actions) && token < s.next && !Current(s, token)
    ensures !Current(RunAll(s, actions), token)
    decreases |actions|
  {
    if |actions| > 0 {
      StepKeeps(s, actions[0]);
      StaleStep(s, actions[0], token);
      StaleForever(Step(s, actions[0]), actions[1..], token);
    }
  }

  // Whatever is done with the token, no entry, promise or waiter changes.
  ghost predicate Harmless(s: State, token: Ident)
    requires RegistryOk(s)
  {
    forall a :: Allowed(s, a) && (a.Complete? || a.Abandon?) && a.token == token ==>
      var t := Step(s, a); t.entries == s.entries && t.promises == s.promises && t.waiters == s.waiters
  }

  /** A token whose entry was replaced or removed stays harmless, whatever happens afterwards. */
  lemma StaleTokenHarmless(s: State, actions: seq<Action>, token: Ident)
    requires RegistryOk(s) && Permitted(s, actions) && token < s.next && !Current(s, token)
    ensures Harmless(RunAll(s, actions), token)
  {
    StaleForever(s, actions, token);
  }

  /**
   * A publisher that replaces a waiting entry settles its promise and leaves a ready
   * entry; the token of the replaced one can do no harm in any continuation.
   */
  lemma ReplacedTokenIsStale(s: State, name: Name, session: nat, handle: nat, actions: seq<Action>)
    requires RegistryOk(s) && name in s.entries && IsPending(s, s.entries[name].id)
    requires (PublishKeeps(s, name, session, handle); Permitted(CreateFromPublish(s, name, session, handle), actions))
    ensures var t := CreateFromPublish(s, name, session, handle);
      var stale := s.entries[name].id;
      && stale in t.tokens && t.promises[stale].status == Broken
      && t.entries[name].isPublish && t.promises[t.entries[name].id].status == Fulfilled
      && RegistryOk(t) && Harmless(RunAll(t, actions), stale)
      && stale in RunAll(t, actions).promises && RunAll(t, actions).promises[stale].status == Broken
  {
    PublishKeeps(s, name, session, handle);
    var t := CreateFromPublish(s, name, session, handle);
    var stale := s.entries[name].id;
    StaleTokenHarmless(t, actions, stale);
    SettledOnce(t, actions, stale);
  }

  /**
   * A waiter that resumes after success looks the name up again. The entry it is
   * given is ready exactly when no token is out for it. That is so whenever it is the
   * entry waited for, or one made by a publisher.
   */
  lemma ResumedEntryIsReady(s: State, w: nat)
    requires RegistryOk(s) && w in s.waiters && s.promises[s.waiters[w]].status == Fulfilled
    requires s.promises[s.waiters[w]].name in s.entries
    ensures var e := s.entries[s.promises[s.waiters[w]].name];
      && (s.promises[e.id].status != Pending <==> e.id !in s.tokens)
      && (e.id == s.waiters[w] || e.isPublish ==> s.promises[e.id].status != Pending)
  {
  }

  /**
   * It is not so when the entry waited for was removed and subscribed to anew before
   * the waiter resumes: the waiter is given an entry that is itself still waiting.
   */
  lemma WaiterMayMeetPendingEntry(s: State, name: Name, w: nat)
    requires RegistryOk(s) && name in s.entries && w in s.waiters && s.waiters[w] == s.entries[name].id
    requires s.promises[s.entries[name].id].status == Fulfilled
    ensures var t := GetOrCreateFromSubscribe(Erase(s, name), name);
      && w in t.waiters && t.promises[t.waiters[w]].status == Fulfilled
      && name in t.entries && t.entries[name].id in t.tokens && IsPending(t, t.entries[name].id)
  {
  }

  // ---- The registry ------------------------------------------------------------------------

  // p is the pending promise of an entry that is picked.
  predicate WaitsFor(s: State, p: Ident, picks: (Name, Entry) -> bool) {
    IsPending(s, p) && s.promises[p].name in s.entries && picks(s.promises[p].name, s.entries[s.promises[p].name])
  }

  // The entries when those in todo are still to be removed.
  ghost predicate EntriesLeft(s0: State, s: State, picks: (Name, Entry) -> bool, todo: set<Name>) {
    && (forall n :: n in todo ==> n in s0.entries && picks(n, s0.entries[n]))
    && (forall n :: n in s.entries <==> n in s0.entries && (n in todo || !picks(n, s0.entries[n])))
    && (forall n :: n in s.entries ==> s.entries[n] == s0.entries[n])
  }

  ghost predicate PromisesLeft(s0: State, s: State, picks: (Name, Entry) -> bool, todo: set<Name>) {
    && s.promises.Keys == s0.promises.Keys
    && forall p :: p in s.promises ==>
         s.promises[p] == if WaitsFor(s0, p, picks) && s0.promises[p].name !in todo then s0.promises[p].(status := Broken)
                          else s0.promises[p]
  }

  lemma RemoveEntry(s0: State, s: State, picks: (Name, Entry) -> bool, todo: set<Name>, n: Name)
    requires EntriesLeft(s0, s, picks, todo) && n in todo
    ensures EntriesLeft(s0, Erase(s, n), picks, todo - {n})
  {
  }

  lemma RemovePromise(s0: State, s: State, picks: (Name, Entry) -> bool, todo: set<Name>, n: Name)
    requires forall p :: IsPending(s0, p) ==> s0.promises[p].name in s0.entries && s0.entries[s0.promises[p].name].id == p
    requires n in s0.entries && s0.entries[n].id in s0.promises && s0.promises[s0.entries[n].id].name == n
    requires n in s.entries && s.entries[n] == s0.entries[n] && picks(n, s0.entries[n])
    requires PromisesLeft(s0, s, picks, todo) && n in todo
    ensures PromisesLeft(s0, Erase(s, n), picks, todo - {n})
  {
    var t, id := Erase(s, n), s0.entries[n].id;
    forall p | p in t.promises
      ensures t.promises[p] == if WaitsFor(s0, p, picks) && s0.promises[p].name !in todo - {n}
        then s0.promises[p].(status := Broken) else s0.promises[p]
    {
      if p != id {
        assert t.promises[p] == s.promises[p];
      }
    }
  }

  method RemoveAll(s0: State, picks: (Name, Entry) -> bool) returns (s: State)
    requires RegistryOk(s0)
    ensures RegistryOk(s) && s.tokens == s0.tokens && s.waiters == s0.waiters
    ensures s.entries == map n | n in s0.entries && !picks(n, s0.entries[n]) :: s0.entries[n]
    ensures PromisesLeft(s0, s, picks, {})
  {
    s := s0;
    var todo := set n | n in s.entries && picks(n, s.entries[n]);
    while todo != {}
      invariant RegistryOk(s) && s.tokens == s0.tokens && s.waiters == s0.waiters
      invariant EntriesLeft(s0, s, picks, todo) && PromisesLeft(s0, s, picks, todo)
    {
      var n :| n in todo;
      EraseKeeps(s, n);
      RemoveEntry(s0, s, picks, todo, n);
      RemovePromise(s0, s, picks, todo, n);
      s := Erase(s, n);
      todo := todo - {n};
    }
  }

  datatype Found = Gone | Broke | Forwarder(id: Ident)

  class SubscriptionRegistry {
    var state: State

    ghost predicate Valid()
      reads this
    {
      RegistryOk(state)
    }

    constructor ()
      ensures Valid() && state == EMPTY
    {
      state := EMPTY;
    }

    // The identifier of the new entry and its token, or of the waiter.
    method Subscribe(name: Name) returns (first: bool, id: Ident)
      requires Valid()
      modifies this
      ensures Valid() && state == GetOrCreateFromSubscribe(old(state), name)
      ensures first <==> name !in old(state).entries
      ensures if first then Current(state, id) && IsPending(state, id) else id in state.waiters
      ensures Subscribed(old(state), state, name, id)
    {
      SubscribeKeeps(state, name);
      first, id := name !in state.entries, state.next;
      state := GetOrCreateFromSubscribe(state, name);
    }

    // True if the entry is still the one the token was made for.
    method Complete(token: Ident, handle: nat, session: nat) returns (current: bool)
      requires Valid() && token in state.tokens
      modifies this
      ensures Valid() && state.tokens == old(state).tokens - {token} && state.waiters == old(state).waiters
      ensures current <==> Current(old(state), token)
      ensures !current ==> state == old(state).(tokens := old(state).tokens - {token})
      ensures current ==>
        var name := old(state).tokens[token];
        && state.entries == old(state).entries[name := old(state).entries[name].(handle := Some(handle), upstream := Some(session))]
        && state.promises == old(state).promises[token := Promise(name, Fulfilled)]
    {
      CompleteKeeps(state, token, handle, session);
      current := Current(state, token);
      state := CompleteSubscription(state, token, handle, session);
    }

    method Abandon(token: Ident)
      requires Valid() && token in state.tokens
      modifies this
      ensures Valid() && state.tokens == old(state).tokens - {token} && state.waiters == old(state).waiters
      ensures state.entries ==
        if Current(old(state), token) then old(state).entries - {old(state).tokens[token]} else old(state).entries
      ensures state.promises ==
        if Current(old(state), token) then old(state).promises[token := Promise(old(state).tokens[token], Failed)]
        else old(state).promises
    {
      FailKeeps(state, token);
      state := FailAndRemove(state, token);
    }

    // The evicted entry, if there was one.
    method Publish(name: Name, session: nat, handle: nat) returns (evicted: Option<Entry>)
      requires Valid()
      modifies this
      ensures Valid() && state == CreateFromPublish(old(state), name, session, handle)
      ensures evicted == if name in old(state).entries then Some(old(state).entries[name]) else None
      ensures Published(old(state), state, name, session, handle)
    {
      PublishKeeps(state, name, session, handle);
      PublishedIsReady(state, name, session, handle);
      evicted := if name in state.entries then Some(state.entries[name]) else None;
      state := CreateFromPublish(state, name, session, handle);
    }

    // The forwarder that still has subscribers, if the entry stays.
    method OnTerminated(name: Name, noSubscribers: bool) returns (kept: Option<Ident>)
      requires Valid()
      modifies this
      ensures Valid() && state == OnPublisherTerminated(old(state), name, noSubscribers)
      ensures kept == if name in old(state).entries && !noSubscribers then Some(old(state).entries[name].id) else None
      ensures Terminated(old(state), state, name, noSubscribers)
    {
      TerminateKeeps(state, name, noSubscribers);
      EraseMeans(state, name);
      kept := if name in state.entries && !noSubscribers then Some(state.entries[name].id) else None;
      state := OnPublisherTerminated(state, name, noSubscribers);
    }

    // Removes every entry the predicate picks; those still waiting break their promise.
    method RemoveIf(picks: (Name, Entry) -> bool)
      requires Valid()
      modifies this
      ensures Valid()
      ensures state.entries == map n | n in old(state).entries && !picks(n, old(state).entries[n]) :: old(state).entries[n]
      ensures state.tokens == old(state).tokens && state.waiters == old(state).waiters
      ensures state.promises.Keys == old(state).promises.Keys
      ensures forall p :: p in state.promises ==>
        state.promises[p] == if WaitsFor(old(state), p, picks) then old(state).promises[p].(status := Broken)
                             else old(state).promises[p]
    {
      var after := RemoveAll(state, picks);
      state := after;
    }

    // What a waiter gets once its promise is settled.
    method Resume(w: nat) returns (r: Found)
      requires Valid() && w in state.waiters && !IsPending(state, state.waiters[w])
      modifies this
      ensures Valid() && state == old(state).(waiters := old(state).waiters - {w})
      ensures var p := old(state).promises[old(state).waiters[w]];
        r == if p.status != Fulfilled then Broke
             else if p.name in state.entries then Forwarder(state.entries[p.name].id)
             else Gone
      ensures r.Forwarder? ==> (IsPending(state, r.id) <==> r.id in state.tokens)
      ensures r.Forwarder? && r.id == old(state).waiters[w] ==> !IsPending(state, r.id)
    {
      var p := state.promises[state.waiters[w]];
      state := state.(waiters := state.waiters - {w});
      if p.status != Fulfilled {
        return Broke;
      }
      return if p.name in state.entries then Forwarder(state.entries[p.name].id) else Gone;
    }
  }
}
