/**
 The billing store's pending-signup rows and the dunning check.  Both decide by comparing
 timestamps as strings; the lemmas say what that decides about the instants.
 */
module Billing {
  import opened Common
  import opened Timestamps

  type Org = string
  type Customer = string
  type Hash = string

  datatype Subscription = Subscription(status: string, updatedAt: string)

  datatype PendingSignup = PendingSignup(tokenHash: Hash, email: string, orgName: string, expiresAt: string)

  type Pending = map<Hash, PendingSignup>

  // ---------------------------------------------------------------------------
  // Pending signups
  // ---------------------------------------------------------------------------

  /** Expired rows count as absent. */
  predicate Live(row: PendingSignup, now: string) {
    !Less(row.expiresAt, now)
  }

  function Peek(pending: Pending, hash: Hash, now: string): Option<PendingSignup> {
    if hash in pending && Live(pending[hash], now) then Some(pending[hash]) else None
  }

  /** A new request replaces every earlier row for the same address. */
  function Recorded(pending: Pending, row: PendingSignup): Pending {
    (map h | h in pending && pending[h].email != row.email :: pending[h])[row.tokenHash := row]
  }

  function Swept(pending: Pending, now: string): Pending {
    map h | h in pending && Live(pending[h], now) :: pending[h]
  }

  class InMemoryBillingStore {
    var customers: map<Org, Customer>
    var pending: Pending

    constructor ()
      ensures customers == map[] && pending == map[]
    {
      customers, pending := map[], map[];
    }

    method RecordCustomer(org: Org, customer: Customer)
      modifies this`customers
      ensures customers == old(customers)[org := customer]
    {
      customers := customers[org := customer];
    }

    method RecordPendingSignup(row: PendingSignup)
      modifies this`pending
      ensures pending == Recorded(old(pending), row)
      ensures forall h :: h in pending && pending[h].email == row.email ==> h == row.tokenHash
    {
      pending := map h | h in pending && pending[h].email != row.email :: pending[h];
      pending := pending[row.tokenHash := row];
    }

    /** Removes the row whether or not it has expired, and returns it only when live. */
    method TakePendingSignup(hash: Hash, now: string) returns (row: Option<PendingSignup>)
      modifies this`pending
      ensures row == Peek(old(pending), hash, now)
      ensures pending == old(pending) - {hash}
    {
      if hash !in pending {
        assert pending == pending - {hash};
        return None;
      }
      var entry := pending[hash];
      pending := pending - {hash};
      row := if Less(entry.expiresAt, now) then None else Some(entry);
    }

    method PeekPendingSignup(hash: Hash, now: string) returns (row: Option<PendingSignup>)
      ensures row == Peek(pending, hash, now)
    {
      if hash !in pending {
        return None;
      }
      row := if Less(pending[hash].expiresAt, now) then None else Some(pending[hash]);
    }

    method DeletePendingSignup(hash: Hash)
      modifies this`pending
      ensures pending == old(pending) - {hash}
    {
      pending := pending - {hash};
    }

    method GcExpiredSignups(now: string) returns (removed: nat)
      modifies this`pending
      ensures pending == Swept(old(pending), now)
      ensures removed == |old(pending)| - |pending|
    {
      var before := |pending|;
      ghost var was := pending;
      pending := map h | h in pending && !Less(pending[h].expiresAt, now) :: pending[h];
      assert pending == Swept(was, now);
      SweepShrinks(was, now);
      removed := before - |pending|;
    }
  }

  lemma {:induction false} SweepShrinks(pending: Pending, now: string)
    ensures |Swept(pending, now)| <= |pending|
  {
    var kept := Swept(pending, now);
    SubsetIsSmaller(kept.Keys, pending.Keys);
    assert |kept| == |kept.Keys| && |pending| == |pending.Keys|;
  }

  lemma {:induction false} SubsetIsSmaller(a: set<Hash>, b: set<Hash>)
    requires a <= b
    ensures |a| <= |b|
  {
    assert b == a + (b - a);
  }

  /** Peek, take and the sweep agree, and what they agree on is the numeric deadline. */
  lemma {:induction false} RowsLiveUntilTheirDeadline(pending: Pending, hash: Hash, now: Instant, deadline: Instant)
    requires InRange(now) && InRange(deadline)
    requires hash in pending && pending[hash].expiresAt == Render(deadline)
    ensures Peek(pending, hash, Render(now)).Some? <==> Millis(now) <= Millis(deadline)
    ensures hash in Swept(pending, Render(now)) <==> Millis(now) <= Millis(deadline)
    ensures Peek(Swept(pending, Render(now)), hash, Render(now)) == Peek(pending, hash, Render(now))
  {
    hide Render, Less;
    StampOrder(deadline, now);
  }

  // ---------------------------------------------------------------------------
  // Dunning
  // ---------------------------------------------------------------------------

  predicate Delinquent(status: string) {
    status == "past_due" || status == "unpaid" || status == "canceled"
  }

  datatype DunningVerdict = DunningVerdict(status: string, updatedAt: string, graceHours: nat)

  /** Both the narrowing to a signed integer and the multiplication saturate. */
  function GraceSecs(graceHours: nat): int {
    Min(I64_MAX, Min(graceHours, I64_MAX) * 3600)
  }

  function CheckDunning(customers: map<Org, Customer>, subs: map<Customer, Subscription>,
                        org: Org, graceHours: nat, now: Instant): Result<(), DunningVerdict> {
    if org !in customers || customers[org] !in subs then Ok(())
    else
      var sub := subs[customers[org]];
      if !Delinquent(sub.status) || !Less(sub.updatedAt, Rfc3339Offset(now, -GraceSecs(graceHours))) then Ok(())
      else Err(DunningVerdict(sub.status, sub.updatedAt, graceHours))
  }

  /**
   A caller is blocked exactly when it has a subscription that is delinquent and last changed more
   than the grace period ago, for every grace value an unsigned 64-bit setting can hold, and
   is then told the status, the time and the grace.
   */
  lemma {:induction false} DunningBlocksPastGrace(customers: map<Org, Customer>, subs: map<Customer, Subscription>,
                                                  org: Org, graceHours: nat, now: Instant, updated: Instant)
    requires InRange(now) && InRange(updated) && graceHours < U64_LIMIT
    requires org in customers && customers[org] in subs ==> subs[customers[org]].updatedAt == Render(updated)
    ensures CheckDunning(customers, subs, org, graceHours, now)
            == if && org in customers && customers[org] in subs
                  && subs[customers[org]].status in ["past_due", "unpaid", "canceled"]
                  && Millis(now) - Millis(updated) > graceHours * 3_600_000
               then Err(DunningVerdict(subs[customers[org]].status, Render(updated), graceHours))
               else Ok(())
  {
    DelinquentStatuses();
    hide Render, Less, Offset, GraceSecs, Delinquent;
    var boundary := Offset(now, -GraceSecs(graceHours));
    BoundaryIsNumeric(now, graceHours);
    StampOrder(updated, boundary);
    assert Millis(updated) < Millis(boundary) <==> Millis(now) - Millis(updated) > graceHours * 3_600_000;
  }

  lemma DelinquentStatuses()
    ensures forall status :: Delinquent(status) <==> status in ["past_due", "unpaid", "canceled"]
  {
  }

  lemma {:induction false} BoundaryIsNumeric(now: Instant, graceHours: nat)
    requires InRange(now)
    ensures InRange(Offset(now, -GraceSecs(graceHours)))
    ensures Millis(Offset(now, -GraceSecs(graceHours)))
         == if now.secs < graceHours * 3600 then 0 else Millis(now) - graceHours * 3_600_000
  {
    hide GraceSecs;
    GraceSaturates(graceHours);
    var grace := GraceSecs(graceHours);
    assert SaturatingAdd(now.secs, -grace) == now.secs - grace;
    assert now.secs < grace <==> now.secs < graceHours * 3600;
  }

  lemma {:induction false} GraceSaturates(graceHours: nat)
    ensures GraceSecs(graceHours) == Min(I64_MAX, graceHours * 3600)
  {
  }
}
