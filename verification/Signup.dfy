/**
 Self-serve signup activation as a crash/retry protocol: peek the pending row, create the
 customer upstream under the token hash as idempotency key, record it, and only then delete
 the row.  Any number of attempts interleave, and each may die between any two steps.
 */
module Signup {
  import opened Common
  import opened Billing

  // ---------------------------------------------------------------------------
  // Organisation slugs
  // ---------------------------------------------------------------------------

  predicate Alphanumeric(c: char) {
    'a' <= c <= 'z' || '0' <= c <= '9'
  }

  /** The digits and the small letters, by their codes. */
  lemma AlphanumericMeans(c: char)
    ensures Alphanumeric(c) <==> 48 <= c as int <= 57 || 97 <= c as int <= 122
  {
  }

  /** Runs of other characters become one dash; a leading run becomes nothing. */
  function Dashed(name: string, prevDash: bool): string {
    if name == "" then ""
    else if Alphanumeric(LowerChar(name[0])) then [LowerChar(name[0])] + Dashed(name[1..], false)
    else if prevDash then Dashed(name[1..], true)
    else "-" + Dashed(name[1..], true)
  }

  function DropTrailingDashes(s: string): string {
    if s != "" && s[|s| - 1] == '-' then DropTrailingDashes(s[..|s| - 1]) else s
  }

  function Slugify(name: string): Org {
    DropTrailingDashes(Dashed(name, true))
  }

  /** The slug as it is built: one pass over the name, then dashes popped off the end. */
  method MakeSlug(name: string) returns (out: Org)
    ensures out == Slugify(name)
  {
    out := "";
    var prevDash := true;
    assert "" + Dashed(name, true) == Dashed(name, true);
    for i := 0 to |name|
      invariant out + Dashed(name[i..], prevDash) == Dashed(name, true)
    {
      assert name[i..][0] == name[i] && name[i..][1..] == name[i + 1..];
      ghost var was, wasDash := out, prevDash;
      var lower := LowerChar(name[i]);
      if Alphanumeric(lower) {
        out := out + [lower];
        prevDash := false;
        assert was + ([lower] + Dashed(name[i + 1..], false)) == out + Dashed(name[i + 1..], false);
      } else if !prevDash {
        out := out + "-";
        prevDash := true;
        assert was + ("-" + Dashed(name[i + 1..], true)) == out + Dashed(name[i + 1..], true);
      }
    }
    assert out + "" == out;
    while out != "" && out[|out| - 1] == '-'
      invariant DropTrailingDashes(out) == Slugify(name)
      decreases |out|
    {
      out := out[..|out| - 1];
    }
  }

  /** Lower-case letters and digits, with single dashes only between them. */
  predicate IsSlug(s: string) {
    && (forall i :: 0 <= i < |s| ==> Alphanumeric(s[i]) || s[i] == '-')
    && (forall i :: 0 <= i < |s| && s[i] == '-' ==> 0 < i && i + 1 < |s| && s[i - 1] != '-')
  }

  /** Where a dash may follow: nowhere at the start or after another dash. */
  predicate DashesApart(s: string, prevDash: bool) {
    && (forall i :: 0 <= i < |s| ==> Alphanumeric(s[i]) || s[i] == '-')
    && (forall i :: 0 < i < |s| && s[i] == '-' ==> s[i - 1] != '-')
    && (prevDash && s != "" ==> s[0] != '-')
  }

  lemma {:induction false} DashedKeepsApart(name: string, prevDash: bool)
    ensures DashesApart(Dashed(name, prevDash), prevDash)
  {
    if name != "" {
      var alnum := Alphanumeric(LowerChar(name[0]));
      DashedKeepsApart(name[1..], if alnum then false else true);
    }
  }

  lemma {:induction false} TrimmedIsSlug(s: string)
    requires DashesApart(s, true)
    ensures IsSlug(DropTrailingDashes(s))
    decreases |s|
  {
    if s != "" && s[|s| - 1] == '-' {
      TrimmedIsSlug(s[..|s| - 1]);
    }
  }

  lemma {:induction false} SlugIsDashedItself(s: string, prevDash: bool)
    requires DashesApart(s, prevDash)
    ensures Dashed(s, prevDash) == s
  {
    if s != "" {
      if Alphanumeric(s[0]) {
        assert LowerChar(s[0]) == s[0];
        SlugIsDashedItself(s[1..], false);
      } else {
        SlugIsDashedItself(s[1..], true);
      }
    }
  }

  /** A slug is made only of letters, digits and single inner dashes, and the slugs are
      exactly the strings that are their own slug. */
  lemma {:induction false} SlugsAreFixedPoints(name: string)
    ensures IsSlug(Slugify(name))
    ensures Slugify(name) == name <==> IsSlug(name)
  {
    DashedKeepsApart(name, true);
    TrimmedIsSlug(Dashed(name, true));
    if IsSlug(name) {
      SlugIsDashedItself(name, true);
    }
  }

  /** The letter-and-digit runs of a name, in lower case; `cur` is the run being read. */
  function Words(name: string, cur: string): seq<string> {
    if name == "" then Ended(cur)
    else if Alphanumeric(LowerChar(name[0])) then Words(name[1..], cur + [LowerChar(name[0])])
    else Ended(cur) + Words(name[1..], "")
  }

  function Ended(cur: string): seq<string> {
    if cur == "" then [] else [cur]
  }

  function WithDashes(words: seq<string>): string {
    if words == [] then ""
    else if |words| == 1 then words[0]
    else words[0] + "-" + WithDashes(words[1..])
  }

  lemma {:induction false} DropKeepsFront(front: string, s: string)
    requires DropTrailingDashes(s) != ""
    ensures DropTrailingDashes(front + s) == front + DropTrailingDashes(s)
    decreases |s|
  {
    var all := front + s;
    assert all[|all| - 1] == s[|s| - 1];
    if s[|s| - 1] == '-' {
      assert all[..|all| - 1] == front + s[..|s| - 1];
      DropKeepsFront(front, s[..|s| - 1]);
    }
  }

  lemma {:induction false} NoWordsNoSlug(name: string)
    requires Words(name, "") == []
    ensures Dashed(name, true) == ""
  {
    if name != "" {
      if Alphanumeric(LowerChar(name[0])) {
        RunsEnd(name[1..], "" + [LowerChar(name[0])]);
      } else {
        NoWordsNoSlug(name[1..]);
      }
    }
  }

  lemma {:induction false} RunsEnd(name: string, cur: string)
    requires cur != ""
    ensures Words(name, cur) != [] && Words(name, cur)[0] != ""
  {
    if name != "" && Alphanumeric(LowerChar(name[0])) {
      RunsEnd(name[1..], cur + [LowerChar(name[0])]);
    }
  }

  lemma {:induction false} FirstWordIsNotEmpty(name: string)
    requires Words(name, "") != []
    ensures Words(name, "")[0] != "" && WithDashes(Words(name, "")) != ""
  {
    if Alphanumeric(LowerChar(name[0])) {
      RunsEnd(name[1..], "" + [LowerChar(name[0])]);
    } else {
      FirstWordIsNotEmpty(name[1..]);
    }
  }

  lemma {:induction false} SlugOfRun(name: string, cur: string)
    requires cur != "" && cur[|cur| - 1] != '-'
    ensures DropTrailingDashes(cur + Dashed(name, false)) == WithDashes(Words(name, cur))
    decreases |name|, 0
  {
    if name == "" {
      assert cur + "" == cur;
    } else if Alphanumeric(LowerChar(name[0])) {
      var more := cur + [LowerChar(name[0])];
      assert cur + ([LowerChar(name[0])] + Dashed(name[1..], false)) == more + Dashed(name[1..], false);
      SlugOfRun(name[1..], more);
    } else {
      var rest := Dashed(name[1..], true);
      assert cur + ("-" + rest) == (cur + "-") + rest;
      SlugOfNewRun(name[1..]);
      if Words(name[1..], "") == [] {
        NoWordsNoSlug(name[1..]);
        assert (cur + "-") + "" == cur + "-" && (cur + "-")[..|cur|] == cur;
      } else {
        FirstWordIsNotEmpty(name[1..]);
        DropKeepsFront(cur + "-", rest);
        assert ([cur] + Words(name[1..], ""))[1..] == Words(name[1..], "");
      }
    }
  }

  lemma {:induction false} SlugOfNewRun(name: string)
    ensures DropTrailingDashes(Dashed(name, true)) == WithDashes(Words(name, ""))
    decreases |name|, 1
  {
    if name != "" {
      if Alphanumeric(LowerChar(name[0])) {
        SlugOfRun(name[1..], [LowerChar(name[0])]);
        assert "" + [LowerChar(name[0])] == [LowerChar(name[0])];
      } else {
        SlugOfNewRun(name[1..]);
        assert [] + Words(name[1..], "") == Words(name[1..], "");
      }
    }
  }

  /** For every name, the slug is its letter-and-digit runs in lower case, joined by dashes. */
  lemma {:induction false} SlugIsItsWords(name: string)
    ensures Slugify(name) == WithDashes(Words(name, ""))
  {
    SlugOfNewRun(name);
  }

  // ---------------------------------------------------------------------------
  // One activation, start to end
  // ---------------------------------------------------------------------------

  /** The upstream provider: an idempotency key that was accepted once keeps its customer. */
  class Provider {
    var cache: map<Hash, Customer>
    var created: seq<(Hash, Customer)>

    constructor ()
      ensures cache == map[] && created == []
    {
      cache, created := map[], [];
    }

    /** `newId` is the identifier the provider would give a new customer. */
    method CreateCustomer(key: Hash, newId: Customer) returns (customer: Customer)
      modifies this
      ensures key in old(cache) ==> customer == old(cache)[key] && cache == old(cache) && created == old(created)
      ensures key !in old(cache) ==>
                customer == newId && cache == old(cache)[key := newId] && created == old(created) + [(key, newId)]
    {
      if key in cache {
        return cache[key];
      }
      customer := newId;
      cache := cache[key := newId];
      created := created + [(key, newId)];
    }
  }

  datatype VerifyError = InvalidSignupToken | InvalidOrg | Upstream | StoreFailed

  /** What the network does to the one upstream call of an attempt, and whether the store
      then records the customer and deletes the row. */
  datatype Fate = Refused | ReplyLost | Answered(recorded: bool, deleted: bool)

  /** A failed record is an error with the row left for a retry; a failed delete is only
      logged, and leaves the row too. */
  method SignupVerify(store: InMemoryBillingStore, provider: Provider, hash: Hash, now: string,
                      newId: Customer, fate: Fate) returns (r: Result<Customer, VerifyError>)
    modifies store, provider
    ensures r.Err? ==> store.pending == old(store.pending) && store.customers == old(store.customers)
    ensures r.Ok? ==>
              && fate.Answered?
              && Peek(old(store.pending), hash, now).Some?
              && hash in provider.cache && r.value == provider.cache[hash]
              && store.customers
                 == old(store.customers)[Slugify(old(store.pending)[hash].orgName) := r.value]
              && store.pending == (if fate.deleted then old(store.pending) - {hash} else old(store.pending))
    ensures r == Err(InvalidSignupToken) <==> Peek(old(store.pending), hash, now).None?
    ensures var row := Peek(old(store.pending), hash, now);
            && (r == Err(InvalidOrg) <==> row.Some? && Slugify(row.value.orgName) == "")
            && (r == Err(Upstream) <==> row.Some? && Slugify(row.value.orgName) != "" && !fate.Answered?)
            && (r == Err(StoreFailed)
                <==> row.Some? && Slugify(row.value.orgName) != "" && fate.Answered? && !fate.recorded)
    ensures r == Err(StoreFailed) ==> hash in provider.cache
    ensures r.Ok? <==> fate.Answered? && fate.recorded && Peek(old(store.pending), hash, now).Some?
                       && Slugify(old(store.pending)[hash].orgName) != ""
    ensures hash in old(provider.cache) ==> provider.cache == old(provider.cache)
  {
    var row := store.PeekPendingSignup(hash, now);
    if row.None? {
      return Err(InvalidSignupToken);
    }
    var org := MakeSlug(row.value.orgName);
    if org == "" {
      return Err(InvalidOrg);
    }
    if fate.Refused? {
      return Err(Upstream);
    }
    var customer := provider.CreateCustomer(hash, newId);
    if fate.ReplyLost? {
      return Err(Upstream);
    }
    if !fate.recorded {
      return Err(StoreFailed);
    }
    store.RecordCustomer(org, customer);
    if fate.deleted {
      store.DeletePendingSignup(hash);
    }
    r := Ok(customer);
  }

  // ---------------------------------------------------------------------------
  // The protocol over interleaved attempts
  // ---------------------------------------------------------------------------

  datatype Phase =
    | Peeked
    | Created(customer: Customer)
    | Persisted(customer: Customer)
    | Done(customer: Customer)
    | Dead

  datatype Attempt = Attempt(row: PendingSignup, phase: Phase)

  /** `recorded` remembers every org-to-customer mapping that was ever stored. */
  datatype State = State(
    pending: Pending,
    customers: map<Org, Customer>,
    recorded: set<(Org, Customer)>,
    cache: map<Hash, Customer>,
    created: seq<(Hash, Customer)>,
    attempts: seq<Attempt>,
    issued: set<Hash>)

  const INITIAL: State := State(map[], map[], {}, map[], [], [], {})

  datatype Event =
    | Request(row: PendingSignup)
    | Verify(hash: Hash, now: string)
    | CallProvider(attempt: nat, newId: Customer, answered: bool)
    | ProviderRefuses(attempt: nat)
    | Persist(attempt: nat, ok: bool)
    | Consume(attempt: nat, ok: bool)
    | Crash(attempt: nat)
    | Sweep(now: string)

  /** Fresh random tokens: a requested hash was never issued before. */
  predicate Enabled(s: State, e: Event) {
    match e
    case Request(row) => row.tokenHash !in s.issued
    case Verify(_, _) => true
    case CallProvider(i, _, _) => i < |s.attempts| && s.attempts[i].phase.Peeked?
    case ProviderRefuses(i) => i < |s.attempts| && s.attempts[i].phase.Peeked?
    case Persist(i, _) => i < |s.attempts| && s.attempts[i].phase.Created?
    case Consume(i, _) => i < |s.attempts| && s.attempts[i].phase.Persisted?
    case Crash(i) => i < |s.attempts|
    case Sweep(_) => true
  }

  function SetPhase(s: State, i: nat, phase: Phase): State
    requires i < |s.attempts|
  {
    s.(attempts := s.attempts[i := s.attempts[i].(phase := phase)])
  }

  function AfterVerify(s: State, hash: Hash, now: string): State {
    var row := Peek(s.pending, hash, now);
    if row.None? || Slugify(row.value.orgName) == "" then s
    else s.(attempts := s.attempts + [Attempt(row.value, Peeked)])
  }

  function AfterCall(s: State, i: nat, newId: Customer, answered: bool): State
    requires i < |s.attempts|
  {
    var key := s.attempts[i].row.tokenHash;
    var customer := if key in s.cache then s.cache[key] else newId;
    var s1 := SetPhase(s, i, if answered then Created(customer) else Dead);
    if key in s.cache then s1
    else s1.(cache := s.cache[key := newId], created := s.created + [(key, newId)])
  }

  function AfterPersist(s: State, i: nat, ok: bool): State
    requires i < |s.attempts| && s.attempts[i].phase.Created?
  {
    var Attempt(row, phase) := s.attempts[i];
    var org := Slugify(row.orgName);
    if !ok then SetPhase(s, i, Dead)
    else SetPhase(s, i, Persisted(phase.customer)).(
      customers := s.customers[org := phase.customer], recorded := s.recorded + {(org, phase.customer)})
  }

  /** A failed delete is only logged: the attempt still finishes, with its row left behind. */
  function AfterConsume(s: State, i: nat, ok: bool): State
    requires i < |s.attempts| && s.attempts[i].phase.Persisted?
  {
    var Attempt(row, phase) := s.attempts[i];
    SetPhase(s, i, Done(phase.customer)).(
      pending := if ok then s.pending - {row.tokenHash} else s.pending)
  }

  function Next(s: State, e: Event): State
    requires Enabled(s, e)
  {
    match e
    case Request(row) => s.(pending := Recorded(s.pending, row), issued := s.issued + {row.tokenHash})
    case Verify(hash, now) => AfterVerify(s, hash, now)
    case CallProvider(i, newId, answered) => AfterCall(s, i, newId, answered)
    case ProviderRefuses(i) => SetPhase(s, i, Dead)
    case Persist(i, ok) => AfterPersist(s, i, ok)
    case Consume(i, ok) => AfterConsume(s, i, ok)
    case Crash(i) => SetPhase(s, i, Dead)
    case Sweep(now) => s.(pending := Swept(s.pending, now))
  }

  function Exec(run: seq<Event>): Option<State> {
    if run == [] then Some(INITIAL) else
      var before := Exec(run[..|run| - 1]);
      var e := run[|run| - 1];
      if before.Some? && Enabled(before.value, e) then Some(Next(before.value, e)) else None
  }

  // ---------------------------------------------------------------------------
  // What every step keeps
  // ---------------------------------------------------------------------------

  /** Rows sit under their own hash, and only hashes already issued occur. */
  ghost predicate RowsFiled(s: State) {
    && (forall h :: h in s.pending ==> s.pending[h].tokenHash == h && h in s.issued)
  }

  /** An attempt works on the very row still pending under its hash, if any is. */
  ghost predicate AttemptFollows(s: State, a: Attempt) {
    && a.row.tokenHash in s.issued
    && Slugify(a.row.orgName) != ""
    && (a.row.tokenHash in s.pending ==> s.pending[a.row.tokenHash] == a.row)
    && (a.phase.Created? || a.phase.Persisted? || a.phase.Done? ==>
          a.row.tokenHash in s.cache && s.cache[a.row.tokenHash] == a.phase.customer)
    && (a.phase.Persisted? || a.phase.Done? ==> (Slugify(a.row.orgName), a.phase.customer) in s.recorded)
  }

  ghost predicate ProviderHonest(s: State) {
    && (forall i :: 0 <= i < |s.created| ==> s.created[i].0 in s.cache && s.cache[s.created[i].0] == s.created[i].1)
    && (forall i, j :: 0 <= i < j < |s.created| ==> s.created[i].0 != s.created[j].0)
    && (forall h :: h in s.cache ==> (h, s.cache[h]) in s.created)
  }

  ghost predicate Inv(s: State) {
    && RowsFiled(s)
    && (forall i :: 0 <= i < |s.attempts| ==> AttemptFollows(s, s.attempts[i]))
    && ProviderHonest(s)
  }

  lemma {:induction false} StepKeepsRows(s: State, e: Event)
    requires RowsFiled(s) && Enabled(s, e)
    ensures RowsFiled(Next(s, e))
  {
  }

  lemma {:induction false} StepKeepsProvider(s: State, e: Event)
    requires ProviderHonest(s) && Enabled(s, e)
    ensures ProviderHonest(Next(s, e))
    ensures forall h :: h in s.cache ==> h in Next(s, e).cache && Next(s, e).cache[h] == s.cache[h]
  {
    if e.CallProvider? && s.attempts[e.attempt].row.tokenHash !in s.cache {
      var key, s' := s.attempts[e.attempt].row.tokenHash, Next(s, e);
      assert s'.cache == s.cache[key := e.newId] && s'.created == s.created + [(key, e.newId)];
      hide Next, Enabled;
      NewCustomerIsHonest(s, s', key, e.newId);
    } else {
      SameCustomers(s, e);
      hide Next, Enabled;
    }
  }

  lemma {:induction false} SameCustomers(s: State, e: Event)
    requires Enabled(s, e) && !(e.CallProvider? && s.attempts[e.attempt].row.tokenHash !in s.cache)
    ensures Next(s, e).cache == s.cache && Next(s, e).created == s.created
  {
  }

  lemma {:induction false} NewCustomerIsHonest(s: State, s': State, key: Hash, newId: Customer)
    requires ProviderHonest(s) && key !in s.cache
    requires s'.cache == s.cache[key := newId] && s'.created == s.created + [(key, newId)]
    ensures ProviderHonest(s')
  {
    assert s'.created[|s.created|] == (key, newId);
    forall h | h in s'.cache ensures (h, s'.cache[h]) in s'.created {
      if h != key {
        assert (h, s.cache[h]) in s.created;
      }
    }
  }

  /** Steps only add to the history, and never file a different row under a used hash. */
  ghost predicate Extends(s: State, s': State) {
    && s.issued <= s'.issued
    && s.recorded <= s'.recorded
    && (forall h :: h in s.cache ==> h in s'.cache && s'.cache[h] == s.cache[h])
    && (forall h :: h in s'.pending && h in s.issued ==> h in s.pending && s'.pending[h] == s.pending[h])
  }

  lemma {:induction false} StepExtends(s: State, e: Event)
    requires Enabled(s, e)
    ensures Extends(s, Next(s, e))
  {
  }

  lemma {:induction false} AttemptKeepsFollowing(s: State, s': State, a: Attempt)
    requires AttemptFollows(s, a) && Extends(s, s')
    ensures AttemptFollows(s', a)
  {
  }

  /** The attempt a step works on, when that attempt survives the step. */
  lemma {:induction false} WorkedAttemptFollows(s: State, e: Event)
    requires e.CallProvider? || e.Persist? || e.Consume?
    requires Enabled(s, e) && AttemptFollows(s, s.attempts[e.attempt])
    ensures AttemptFollows(Next(s, e), Next(s, e).attempts[e.attempt])
  {
    hide Slugify;
  }

  lemma {:induction false} DeadAttemptFollows(s: State, a: Attempt)
    requires AttemptFollows(s, a)
    ensures AttemptFollows(s, a.(phase := Dead))
  {
  }

  lemma {:induction false} NewAttemptFollows(s: State, hash: Hash, now: string)
    requires RowsFiled(s) && |AfterVerify(s, hash, now).attempts| > |s.attempts|
    ensures AttemptFollows(AfterVerify(s, hash, now), AfterVerify(s, hash, now).attempts[|s.attempts|])
  {
    hide Slugify;
  }

  lemma {:induction false} StepKeepsAttempts(s: State, e: Event, i: nat)
    requires Inv(s) && Enabled(s, e) && i < |Next(s, e).attempts|
    ensures AttemptFollows(Next(s, e), Next(s, e).attempts[i])
  {
    hide AttemptFollows, Extends, RowsFiled, ProviderHonest;
    var s' := Next(s, e);
    StepExtends(s, e);
    if i >= |s.attempts| {
      NewAttemptFollows(s, e.hash, e.now);
    } else if s'.attempts[i] == s.attempts[i] {
      AttemptKeepsFollowing(s, s', s.attempts[i]);
    } else if e.CallProvider? || e.Persist? || e.Consume? {
      WorkedAttemptFollows(s, e);
    } else {
      AttemptKeepsFollowing(s, s', s.attempts[i]);
      DeadAttemptFollows(s', s.attempts[i]);
    }
  }

  lemma {:induction false} StepKeepsInv(s: State, e: Event)
    requires Inv(s) && Enabled(s, e)
    ensures Inv(Next(s, e))
  {
    hide Next, RowsFiled, ProviderHonest, AttemptFollows;
    StepKeepsRows(s, e);
    StepKeepsProvider(s, e);
    forall i | 0 <= i < |Next(s, e).attempts| ensures AttemptFollows(Next(s, e), Next(s, e).attempts[i]) {
      StepKeepsAttempts(s, e, i);
    }
  }

  lemma {:induction false} RunKeepsInv(run: seq<Event>)
    requires Exec(run).Some?
    ensures Inv(Exec(run).value)
  {
    hide Inv, Next;
    if run == [] {
      InitialInv();
    } else {
      RunKeepsInv(run[..|run| - 1]);
      StepKeepsInv(Exec(run[..|run| - 1]).value, run[|run| - 1]);
    }
  }

  lemma {:induction false} InitialInv()
    ensures Inv(INITIAL)
  {
  }

  // ---------------------------------------------------------------------------
  // Theorems
  // ---------------------------------------------------------------------------

  /**
   Over every interleaving, one token creates at most one customer, and every attempt on
   that token that got an answer got that same customer.
   */
  lemma {:induction false} OneCustomerPerToken(run: seq<Event>)
    requires Exec(run).Some?
    ensures var s := Exec(run).value;
            && (forall i, j :: 0 <= i < j < |s.created| ==> s.created[i].0 != s.created[j].0)
            && (forall i, a :: 0 <= i < |s.created| && 0 <= a < |s.attempts| ==>
                                 AnsweredBy(s.attempts[a], s.created[i]))
  {
    RunKeepsInv(run);
    var s := Exec(run).value;
    hide Exec;
    forall i, a | 0 <= i < |s.created| && 0 <= a < |s.attempts| ensures AnsweredBy(s.attempts[a], s.created[i]) {
      assert AttemptFollows(s, s.attempts[a]);
    }
  }

  /** An attempt that got an answer for this creation's token got its customer. */
  ghost predicate AnsweredBy(att: Attempt, creation: (Hash, Customer)) {
    creation.0 == att.row.tokenHash && !att.phase.Peeked? && !att.phase.Dead? ==> att.phase.customer == creation.1
  }

  /**
   A pending row leaves the store only because its org's customer has been recorded, or it
   had expired, or the same address asked again.
   */
  lemma {:induction false} RowsLeaveOnlyWhenSettled(run: seq<Event>, e: Event, h: Hash)
    requires Exec(run).Some? && Enabled(Exec(run).value, e)
    requires h in Exec(run).value.pending && h !in Next(Exec(run).value, e).pending
    ensures var s := Exec(run).value;
            var row := s.pending[h];
            || (h in s.cache && (Slugify(row.orgName), s.cache[h]) in s.recorded)
            || (e.Sweep? && !Live(row, e.now))
            || (e.Request? && e.row.email == row.email)
  {
    hide Slugify, Live;
    RunKeepsInv(run);
    var s := Exec(run).value;
    if e.Consume? {
      assert AttemptFollows(s, s.attempts[e.attempt]);
    }
  }

  /** The four steps of one undisturbed attempt, started in state `s`. */
  function FaultFree(s: State, hash: Hash, now: string, newId: Customer): seq<Event> {
    var i := |s.attempts|;
    [Verify(hash, now), CallProvider(i, newId, true), Persist(i, true), Consume(i, true)]
  }

  function Continue(s: State, events: seq<Event>): Option<State>
    decreases |events|
  {
    if events == [] then Some(s)
    else if Enabled(s, events[0]) then Continue(Next(s, events[0]), events[1..])
    else None
  }

  /**
   Whatever happened before, an undisturbed attempt on a live row settles it: the org maps
   to the customer of this token, the one created earlier when there was one, and the row
   is gone.
   */
  lemma {:induction false} RetrySettles(run: seq<Event>, hash: Hash, now: string, newId: Customer)
    requires Exec(run).Some?
    requires Peek(Exec(run).value.pending, hash, now).Some?
    requires Slugify(Exec(run).value.pending[hash].orgName) != ""
    ensures var s := Exec(run).value;
            var end := Continue(s, FaultFree(s, hash, now, newId));
            && end.Some?
            && var org := Slugify(s.pending[hash].orgName);
               var customer := if hash in s.cache then s.cache[hash] else newId;
               && org in end.value.customers && end.value.customers[org] == customer
               && hash in end.value.cache && end.value.cache[hash] == customer
               && end.value.pending == s.pending - {hash}
  {
    hide Slugify, Live;
    RunKeepsInv(run);
    var s, i := Exec(run).value, |Exec(run).value.attempts|;
    assert s.pending[hash].tokenHash == hash;
    var s1 := Next(s, Verify(hash, now));
    assert s1.attempts[i] == Attempt(s.pending[hash], Peeked);
    var s2 := Next(s1, CallProvider(i, newId, true));
    var s3 := Next(s2, Persist(i, true));
    var s4 := Next(s3, Consume(i, true));
    var all := FaultFree(s, hash, now, newId);
    assert all[1..][1..] == all[2..] && all[1..][1..][1..] == all[3..];
    assert Continue(s4, []) == Some(s4);
    assert Continue(s3, [Consume(i, true)]) == Some(s4);
    assert Continue(s2, all[2..]) == Some(s4) by {
      assert all[2..] == [Persist(i, true), Consume(i, true)] && all[2..][1..] == [Consume(i, true)];
    }
    assert Continue(s1, all[1..]) == Some(s4) by {
      assert all[1..][0] == CallProvider(i, newId, true);
    }
  }

  // ---------------------------------------------------------------------------
  // Attempts that interleave
  // ---------------------------------------------------------------------------

  /** The token whose attempt last recorded a customer for the org. */
  function LastWriter(run: seq<Event>, org: Org): Option<Hash>
    requires Exec(run).Some?
  {
    if run == [] then None
    else
      var before, e := run[..|run| - 1], run[|run| - 1];
      var s := Exec(before).value;
      if e.Persist? && e.ok && Slugify(s.attempts[e.attempt].row.orgName) == org
      then Some(s.attempts[e.attempt].row.tokenHash)
      else LastWriter(before, org)
  }

  lemma {:induction false} StepWritesOneOrg(s: State, e: Event, org: Org)
    requires Enabled(s, e)
    ensures var s' := Next(s, e);
            if e.Persist? && e.ok && Slugify(s.attempts[e.attempt].row.orgName) == org
            then org in s'.customers && s'.customers[org] == s.attempts[e.attempt].phase.customer
            else (org in s'.customers <==> org in s.customers)
                 && (org in s.customers ==> s'.customers[org] == s.customers[org])
  {
    hide Slugify;
  }

  /** In every interleaving an org maps to the customer of the token that last wrote it. */
  lemma {:induction false} OrgsMapToTheirLastWriter(run: seq<Event>, org: Org)
    requires Exec(run).Some?
    ensures var s, w := Exec(run).value, LastWriter(run, org);
            && (org in s.customers <==> w.Some?)
            && (w.Some? ==> w.value in s.cache && s.customers[org] == s.cache[w.value])
  {
    hide Next, Slugify, Enabled;
    if run != [] {
      var before, e := run[..|run| - 1], run[|run| - 1];
      var s := Exec(before).value;
      OrgsMapToTheirLastWriter(before, org);
      RunKeepsInv(before);
      StepWritesOneOrg(s, e, org);
      StepExtends(s, e);
      if e.Persist? {
        PersistingIsCached(s, e);
      }
      hide Inv;
    }
  }

  lemma {:induction false} PersistingIsCached(s: State, e: Event)
    requires Inv(s) && Enabled(s, e) && e.Persist?
    ensures var a := s.attempts[e.attempt];
            a.phase.Created? && a.row.tokenHash in s.cache && s.cache[a.row.tokenHash] == a.phase.customer
  {
    assert AttemptFollows(s, s.attempts[e.attempt]);
  }

  /** The provider never gives two keys the same customer id. */
  ghost predicate DistinctCustomers(s: State) {
    forall i, j :: 0 <= i < j < |s.created| ==> s.created[i].1 != s.created[j].1
  }

  /**
   Whatever else runs in between, an attempt that has recorded its customer used the one
   customer of its token; its org maps to the customer of the org's last writer, and, the
   provider's ids being distinct, that is this attempt's customer if and only if no other
   token has written the org since.
   */
  lemma {:induction false} InterleavedAttemptSettles(run: seq<Event>, a: nat)
    requires Exec(run).Some? && a < |Exec(run).value.attempts|
    requires var phase := Exec(run).value.attempts[a].phase; phase.Persisted? || phase.Done?
    ensures var s := Exec(run).value;
            var Attempt(row, phase) := s.attempts[a];
            var org := Slugify(row.orgName);
            var w := LastWriter(run, org);
            && row.tokenHash in s.cache && s.cache[row.tokenHash] == phase.customer
            && w.Some? && w.value in s.cache
            && org in s.customers && s.customers[org] == s.cache[w.value]
            && (DistinctCustomers(s) ==> (s.customers[org] == phase.customer <==> w == Some(row.tokenHash)))
  {
    hide Slugify;
    var s := Exec(run).value;
    var Attempt(row, phase) := s.attempts[a];
    var org := Slugify(row.orgName);
    RunKeepsInv(run);
    assert AttemptFollows(s, s.attempts[a]);
    RecordedOrgsAreMapped(run, org, phase.customer);
    OrgsMapToTheirLastWriter(run, org);
    hide Exec, LastWriter;
    if DistinctCustomers(s) {
      OneKeyPerCustomer(s, row.tokenHash, LastWriter(run, org).value);
    }
  }

  lemma {:induction false} OneKeyPerCustomer(s: State, h: Hash, k: Hash)
    requires ProviderHonest(s) && DistinctCustomers(s) && h in s.cache && k in s.cache
    ensures s.cache[h] == s.cache[k] <==> h == k
  {
    if s.cache[h] == s.cache[k] {
      assert (h, s.cache[h]) in s.created && (k, s.cache[k]) in s.created;
    }
  }

  lemma {:induction false} RecordedOrgsAreMapped(run: seq<Event>, org: Org, customer: Customer)
    requires Exec(run).Some? && (org, customer) in Exec(run).value.recorded
    ensures org in Exec(run).value.customers
  {
    hide Next, Slugify, Enabled;
    if run != [] {
      var before, e := run[..|run| - 1], run[|run| - 1];
      var s := Exec(before).value;
      StepWritesOneOrg(s, e, org);
      if (org, customer) in s.recorded {
        RecordedOrgsAreMapped(before, org, customer);
      } else {
        StepRecordsWhatItWrites(s, e, org, customer);
      }
    }
  }

  lemma {:induction false} StepRecordsWhatItWrites(s: State, e: Event, org: Org, customer: Customer)
    requires Enabled(s, e) && (org, customer) in Next(s, e).recorded && (org, customer) !in s.recorded
    ensures e.Persist? && e.ok && Slugify(s.attempts[e.attempt].row.orgName) == org
  {
    hide Slugify;
  }

  /** Two tokens whose names have one slug: whichever attempt records last takes the org. */
  lemma {:induction false} LaterSignupTakesTheOrg(s: State, i: nat, j: nat)
    requires i < |s.attempts| && j < |s.attempts| && i != j
    requires s.attempts[i].phase.Created? && s.attempts[j].phase.Created?
    requires Slugify(s.attempts[i].row.orgName) == Slugify(s.attempts[j].row.orgName)
    ensures Enabled(s, Persist(i, true)) && Enabled(Next(s, Persist(i, true)), Persist(j, true))
    ensures var end := Next(Next(s, Persist(i, true)), Persist(j, true));
            var org := Slugify(s.attempts[i].row.orgName);
            && end.attempts[i].phase == Persisted(s.attempts[i].phase.customer)
            && org in end.customers && end.customers[org] == s.attempts[j].phase.customer
  {
    hide Slugify;
  }

  // ---------------------------------------------------------------------------
  // Two names, one slug
  // ---------------------------------------------------------------------------

  const FIRST_ROW: PendingSignup := PendingSignup("h1", "x@a", "A", "")
  const SECOND_ROW: PendingSignup := PendingSignup("h2", "y@a", "a!", "")

  lemma {:induction false} OneSlug()
    ensures Slugify("A") == "a" && Slugify("a!") == "a"
  {
    assert Dashed("", false) == "" && Dashed("", true) == "";
    assert "A"[1..] == "" && Dashed("A", true) == "a";
    assert "!"[1..] == "" && Dashed("!", false) == "-";
    assert "a!"[1..] == "!" && Dashed("a!", true) == "a-";
    assert "a-"[..1] == "a" && DropTrailingDashes("a") == "a";
  }

  lemma {:induction false} Then(run: seq<Event>, e: Event)
    requires Exec(run).Some? && Enabled(Exec(run).value, e)
    ensures Exec(run + [e]) == Some(Next(Exec(run).value, e))
  {
    assert (run + [e])[..|run|] == run;
  }

  const BOTH_ASK: seq<Event> := [] + [Request(FIRST_ROW)] + [Request(SECOND_ROW)]
  const BOTH_VERIFY: seq<Event> := BOTH_ASK + [Verify("h1", "")] + [Verify("h2", "")]
  const BOTH_CREATE: seq<Event> := BOTH_VERIFY + [CallProvider(0, "c1", true)] + [CallProvider(1, "c2", true)]
  const BOTH_RECORD: seq<Event> := BOTH_CREATE + [Persist(0, true)] + [Persist(1, true)]

  lemma {:induction false} BothAsk()
    ensures Exec(BOTH_ASK).Some?
    ensures var s := Exec(BOTH_ASK).value;
            s.pending == map["h1" := FIRST_ROW, "h2" := SECOND_ROW] && s.attempts == [] && s.cache == map[]
  {
    Then([], Request(FIRST_ROW));
    Then([] + [Request(FIRST_ROW)], Request(SECOND_ROW));
    var s1 := Exec([] + [Request(FIRST_ROW)]).value;
    assert s1.pending == map["h1" := FIRST_ROW];
    assert Exec(BOTH_ASK).value.pending == map["h1" := FIRST_ROW, "h2" := SECOND_ROW];
  }

  lemma {:induction false} BothVerify()
    ensures Exec(BOTH_VERIFY).Some?
    ensures var s := Exec(BOTH_VERIFY).value;
            s.attempts == [Attempt(FIRST_ROW, Peeked), Attempt(SECOND_ROW, Peeked)] && s.cache == map[]
  {
    BothAsk();
    OneSlug();
    Then(BOTH_ASK, Verify("h1", ""));
    Then(BOTH_ASK + [Verify("h1", "")], Verify("h2", ""));
    hide Exec, Slugify;
  }

  lemma {:induction false} BothCreate()
    ensures Exec(BOTH_CREATE).Some?
    ensures Exec(BOTH_CREATE).value.attempts
         == [Attempt(FIRST_ROW, Created("c1")), Attempt(SECOND_ROW, Created("c2"))]
  {
    BothVerify();
    Then(BOTH_VERIFY, CallProvider(0, "c1", true));
    Then(BOTH_VERIFY + [CallProvider(0, "c1", true)], CallProvider(1, "c2", true));
    hide Exec;
  }

  /** Two addresses ask for "A" and "a!", and verify side by side: both get their customer,
      and the org ends mapped to the second one's only. */
  lemma {:induction false} SecondSignupTakesTheOrg()
    ensures Exec(BOTH_RECORD).Some?
    ensures var s := Exec(BOTH_RECORD).value;
            && s.attempts[0] == Attempt(FIRST_ROW, Persisted("c1")) && Slugify(FIRST_ROW.orgName) == "a"
            && "a" in s.customers && s.customers["a"] == "c2"
  {
    BothCreate();
    OneSlug();
    var s := Exec(BOTH_CREATE).value;
    LaterSignupTakesTheOrg(s, 0, 1);
    Then(BOTH_CREATE, Persist(0, true));
    Then(BOTH_CREATE + [Persist(0, true)], Persist(1, true));
    hide Exec, Slugify;
  }
}
