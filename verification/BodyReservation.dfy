/** How much a request reserves. */
module BodyReservation {
  import opened Units
  import opened JsonGrammar
  import opened Decimal
  import opened BodyAdmission
  import opened BodyAdmissionRuns

  const MAX_REQUEST_BODY: nat := 32 * 1024 * 1024
  const MULTIPLIER: nat := 8
  const MAX_RESERVATION: nat := MULTIPLIER * MAX_REQUEST_BODY
  const IDENTITY: Text := [0x69, 0x64, 0x65, 0x6e, 0x74, 0x69, 0x74, 0x79]

  function LowerUnit(c: Unit): Unit { if 0x41 <= c <= 0x5a then c + 0x20 else c }

  predicate IsIdentity(t: Text) {
    |t| == |IDENTITY| && forall k :: 0 <= k < |t| ==> LowerUnit(t[k]) == IDENTITY[k]
  }

  const CAPITALS: Text := [0x49, 0x44, 0x45, 0x4e, 0x54, 0x49, 0x54, 0x59]

  /** Each letter of the word in either case, and nothing else. */
  lemma IdentityMeans(t: Text)
    ensures IsIdentity(t) <==> |t| == 8 && forall k :: 0 <= k < 8 ==> t[k] == IDENTITY[k] || t[k] == CAPITALS[k]
  {
    forall k | 0 <= k < |t| && |t| == 8
      ensures LowerUnit(t[k]) == IDENTITY[k] <==> t[k] == IDENTITY[k] || t[k] == CAPITALS[k] {
      assert IDENTITY[k] == CAPITALS[k] + 0x20 && 0x41 <= CAPITALS[k] <= 0x5a;
    }
  }

  /** The one canonical decimal spelling of a safe integer. */
  function CanonicalSafeContentLength(value: Option<Text>): Option<nat> {
    if value.Some? && Canonical(value.value) && NumberOf(value.value) <= MAX_SAFE_INTEGER
    then Some(NumberOf(value.value)) else None
  }

  /** An admissible length is exactly the spelling of its number. */
  lemma AdmissibleLengths(t: Text, n: nat)
    ensures CanonicalSafeContentLength(Some(t)) == Some(n) <==> t == Digits(n) && n <= MAX_SAFE_INTEGER
  {
    hide Digits, NumberOf;
    DigitsCanonical(n);
    if Canonical(t) { CanonicalIsDigits(t); }
  }

  function ReservationBytes(encoding: Option<Text>, transferEncoding: bool, length: Option<Text>, budget: nat): nat {
    var transparent := encoding.None? || IsIdentity(encoding.value);
    if !transparent || transferEncoding then Min(budget, MAX_RESERVATION) else
    var declared := CanonicalSafeContentLength(length);
    if declared.None? || declared.value > MAX_REQUEST_BODY then Min(budget, MAX_RESERVATION)
    else Min(budget, declared.value * MULTIPLIER)
  }

  /** A plainly declared length of any size reserves eight times itself, up to the worst case and the budget. */
  lemma DeclaredLengthReserves(n: nat, encoding: Option<Text>, budget: nat)
    requires encoding.None? || IsIdentity(encoding.value)
    ensures ReservationBytes(encoding, false, Some(Digits(n)), budget) ==
      Min(budget, MULTIPLIER * Min(n, MAX_REQUEST_BODY))
  {
    DigitsCanonical(n);
  }

  /**
   Exactly a transparent body whose length is plainly spelled, and within the request ceiling, reserves eight times that
   length; every other body reserves the worst case; and both are cut at the budget.
   */
  lemma ReservationMeans(encoding: Option<Text>, transferEncoding: bool, length: Option<Text>, budget: nat)
    ensures var bytes := ReservationBytes(encoding, transferEncoding, length, budget);
      var plain := (encoding.None? || IsIdentity(encoding.value)) && !transferEncoding;
      && (forall n: nat :: plain && n <= 0x200_0000 && length == Some(Digits(n)) ==> bytes == Min(budget, 8 * n))
      && (!plain || (forall n: nat :: n <= 0x200_0000 ==> length != Some(Digits(n))) ==>
        bytes == Min(budget, 0x1000_0000))
  {
    hide Digits, NumberOf, Canonical, IsIdentity, CanonicalSafeContentLength;
    forall n: nat | n <= 0x200_0000 && length == Some(Digits(n))
      ensures CanonicalSafeContentLength(length) == Some(n)
    {
      AdmissibleLengths(length.value, n);
    }
    var declared := CanonicalSafeContentLength(length);
    if declared.Some? {
      SomeLength(length);
      AdmissibleLengths(length.value, declared.value);
    }
  }

  lemma SomeLength(length: Option<Text>)
    ensures CanonicalSafeContentLength(length).Some? ==> length.Some?
  {}

  /** A reservation computed for a request is refused only when the queue is full. */
  lemma RequestsAreNeverOversize(s: State, encoding: Option<Text>, transferEncoding: bool, length: Option<Text>)
    requires !s.shuttingDown && s.budget <= MAX_SAFE_INTEGER
    ensures var bytes := ReservationBytes(encoding, transferEncoding, length, s.budget);
            && (AcquireReply(s, Int(bytes), false) == QueueFull ==> |s.queue| >= s.queueLimit)
            && (Inv(s) && s.active == 0 ==> AcquireReply(s, Int(bytes), false) == Granted)
  {
    var bytes := ReservationBytes(encoding, transferEncoding, length, s.budget);
    assert 0 <= bytes <= s.budget;
    if Inv(s) && s.active == 0 {
      IdleHoldsNothing(s.leases, s.next);
    }
  }

  lemma {:induction false} IdleHoldsNothing(leases: map<nat, Lease>, n: nat)
    requires LiveCount(leases, n) == 0 && NonNegative(leases)
    ensures Held(leases, n) == 0
  {
    if n > 0 {
      HeldBounds(leases, n - 1);
      IdleHoldsNothing(leases, n - 1);
    }
  }

  /** Returning a lease twice is returning it once. */
  lemma ReleaseIsIdempotent(s: State, ticket: nat)
    requires Inv(s)
    ensures Release(Release(s, ticket), ticket) == Release(s, ticket)
  {
    hide Drain, Accounted;
    if IsLive(s.leases, ticket) {
      WaitersUngranted(s);
      var lease := s.leases[ticket];
      DrainExtends(s.(leases := s.leases[ticket := lease.(released := true)],
                      reserved := Max(0, s.reserved - lease.reserved),
                      active := Max(0, s.active - 1),
                      counters := s.counters.(released := s.counters.released + 1)));
    }
  }
}
