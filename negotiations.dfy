/** The negotiation store (src/context/NegotiationContext.tsx): a list of
    negotiations, each with an append-only message ledger, a current offer
    derived from that ledger and a status.

    The store's operations are modelled twice: as functions from the old
    list to the new list or an error (`Start`, `Send`, `Accept`,
    `Complete`), about which the lemmas are proved, and as the methods of
    `NegotiationStore`, which update the list in place and are proved to do
    what those functions say. The logged-in user, the message id taken from
    the clock and the current timestamp are parameters. */
module Negotiations {
  import opened Wrappers
  import opened Types
  import Seqs
  import Decimal

  /** The errors the store throws, one per distinct message. */
  datatype NegotiationError =
    | NotLoggedIn            // "You must be logged in to ..."
    | OnlyBuyersCanStart     // "Only buyers can start negotiations"
    | NotFound               // "Negotiation not found"
    | NotParticipant         // "You are not part of this negotiation"
    | OnlySellerCanAccept    // "Only the seller can accept this offer"
    | OnlyBuyerCanComplete   // "Only the buyer can complete this purchase"

  /** The id of the k-th negotiation, `n${k}`. */
  function NegotiationId(k: nat): string {
    "n" + Decimal.NatToString(k)
  }

  /** The list the store loads at start-up. */
  const MockNegotiations: seq<Negotiation> := [
    Negotiation(
      "n1", "p1", "b1", "s1",
      [ Message("m1", "b1", Buyer, "I'm interested in your iPhone. Would you accept $650?",
                Some(650), "2023-04-03T09:15:00Z"),
        Message("m2", "s1", Seller, "I can do $680, it's in great condition.",
                Some(680), "2023-04-03T10:20:00Z") ],
      680, Active, "2023-04-03T09:15:00Z", "2023-04-03T10:20:00Z")
  ]

  // ------------------------------------------------------------------
  // The offer ledger

  /** A message changes the current offer when its offer is present and
      non-zero: the store writes `offerAmount || currentOffer`. */
  predicate CarriesOffer(m: Message) {
    m.offerAmount.Some? && m.offerAmount.value != 0
  }

  /** The offer the ledger stands at: that of its latest message carrying
      one, or 0 when none does. */
  function LedgerOffer(msgs: seq<Message>): int {
    if msgs == [] then 0
    else if CarriesOffer(msgs[|msgs| - 1]) then msgs[|msgs| - 1].offerAmount.value
    else LedgerOffer(msgs[..|msgs| - 1])
  }

  /** `LedgerOffer` is the offer of the last offer-carrying message, and 0
      exactly when no message carries an offer. */
  lemma {:induction false} LedgerOfferIsLatest(msgs: seq<Message>)
    ensures LedgerOffer(msgs) != 0 ==>
      exists i :: 0 <= i < |msgs| && CarriesOffer(msgs[i])
        && msgs[i].offerAmount.value == LedgerOffer(msgs)
        && forall j :: i < j < |msgs| ==> !CarriesOffer(msgs[j])
    ensures LedgerOffer(msgs) == 0 <==> forall j :: 0 <= j < |msgs| ==> !CarriesOffer(msgs[j])
  {
    if msgs != [] && !CarriesOffer(msgs[|msgs| - 1]) {
      var p := msgs[..|msgs| - 1];
      LedgerOfferIsLatest(p);
      if LedgerOffer(p) != 0 {
        var i :| 0 <= i < |p| && CarriesOffer(p[i]) && p[i].offerAmount.value == LedgerOffer(p)
          && forall j :: i < j < |p| ==> !CarriesOffer(p[j]);
        assert msgs[i] == p[i];
      }
    }
  }

  /** The entry `sendMessage` writes back for its target: the message
      appended, the offer taken over when it carries one, `updatedAt` set. */
  function WithMessage(n: Negotiation, m: Message, now: string): Negotiation {
    n.(messages := n.messages + [m],
       currentOffer := if CarriesOffer(m) then m.offerAmount.value else n.currentOffer,
       updatedAt := now)
  }

  /** The entry `acceptOffer` and `completePurchase` write back. */
  function WithStatus(n: Negotiation, s: NegotiationStatus, now: string): Negotiation {
    n.(status := s, updatedAt := now)
  }

  /** Appending keeps the current offer equal to the ledger's offer. */
  lemma WithMessageTracksLedger(n: Negotiation, m: Message, now: string)
    requires n.currentOffer == LedgerOffer(n.messages)
    ensures WithMessage(n, m, now).currentOffer == LedgerOffer(WithMessage(n, m, now).messages)
  {
    assert (n.messages + [m])[..|n.messages|] == n.messages;
  }

  // ------------------------------------------------------------------
  // What every reachable list satisfies

  predicate IsParticipant(n: Negotiation, userId: string) {
    userId == n.buyerId || userId == n.sellerId
  }

  /** A ledger that was seeded, holds only the two parties' messages, and
      whose current offer is the one it stands at. */
  ghost predicate WellFormed(n: Negotiation) {
    && |n.messages| > 0
    && (forall i :: 0 <= i < |n.messages| ==> IsParticipant(n, n.messages[i].senderId))
    && n.currentOffer == LedgerOffer(n.messages)
  }

  /** The i-th negotiation (from 0) has id `n${i+1}`. */
  ghost predicate CanonicalIds(negs: seq<Negotiation>) {
    forall i :: 0 <= i < |negs| ==> negs[i].id == NegotiationId(i + 1)
  }

  ghost predicate StoreInvariant(negs: seq<Negotiation>) {
    CanonicalIds(negs) && forall i :: 0 <= i < |negs| ==> WellFormed(negs[i])
  }

  /** The loaded list satisfies the invariant; its current offer 680 is
      the latest offer of its ledger. */
  lemma MockNegotiationsWellFormed()
    ensures StoreInvariant(MockNegotiations)
    ensures LedgerOffer(MockNegotiations[0].messages) == 680
  {
    assert NegotiationId(1) == "n1";
    var msgs := MockNegotiations[0].messages;
    assert msgs[..1] == [msgs[0]];
  }

  /** Canonical ids are pairwise distinct. */
  lemma CanonicalIdsDistinct(negs: seq<Negotiation>, i: nat, j: nat)
    requires CanonicalIds(negs) && i < |negs| && j < |negs|
    requires negs[i].id == negs[j].id
    ensures i == j
  {
    Decimal.TaggedInjective('n', 'n', i + 1, j + 1);
  }

  // ------------------------------------------------------------------
  // Lookups

  /** The position of the first negotiation with this id (`find`). */
  function IndexOf(negs: seq<Negotiation>, id: string): (r: Option<nat>)
    ensures r.Some? ==> r.value < |negs| && negs[r.value].id == id
    ensures r.Some? ==> forall j :: 0 <= j < r.value ==> negs[j].id != id
    ensures r.None? <==> forall j :: 0 <= j < |negs| ==> negs[j].id != id
  {
    Seqs.FirstIndex(negs, (n: Negotiation) => n.id == id)
  }

  /** getNegotiationById: the first negotiation with that id, if any. */
  function NegotiationById(negs: seq<Negotiation>, id: string): (r: Option<Negotiation>)
    ensures r.Some? <==> exists i :: 0 <= i < |negs| && negs[i].id == id
    ensures r.Some? ==>
      exists i :: 0 <= i < |negs| && negs[i] == r.value && r.value.id == id
        && forall j :: 0 <= j < i ==> negs[j].id != id
  {
    match IndexOf(negs, id)
    case None => None
    case Some(k) => Some(negs[k])
  }

  /** With canonical ids, `n${k+1}` finds exactly the k-th negotiation. */
  lemma CanonicalLookup(negs: seq<Negotiation>, k: nat)
    requires CanonicalIds(negs) && k < |negs|
    ensures IndexOf(negs, NegotiationId(k + 1)) == Some(k)
    ensures NegotiationById(negs, NegotiationId(k + 1)) == Some(negs[k])
  {
    var r := IndexOf(negs, NegotiationId(k + 1));
    assert negs[k].id == NegotiationId(k + 1);
    CanonicalIdsDistinct(negs, r.value, k);
  }

  /** Whether the user's listing shows a negotiation. */
  predicate Sees(u: User, n: Negotiation) {
    (u.role == Buyer && n.buyerId == u.id) || (u.role == Seller && n.sellerId == u.id)
  }

  /** getUserNegotiations: a buyer's own negotiations as buyer, a seller's
      as seller, nothing for a technician or when nobody is logged in. */
  function UserNegotiations(negs: seq<Negotiation>, user: Option<User>): (r: seq<Negotiation>)
    ensures |r| <= |negs|
    ensures user.None? ==> r == []
    ensures user.Some? && user.value.role == Buyer ==>
      forall n :: n in r <==> n in negs && n.buyerId == user.value.id
    ensures user.Some? && user.value.role == Seller ==>
      forall n :: n in r <==> n in negs && n.sellerId == user.value.id
    ensures user.Some? && user.value.role == Technician ==> forall n :: n !in r
  {
    match user
    case None => []
    case Some(u) => Seqs.Filter(negs, (n: Negotiation) => Sees(u, n))
  }

  /** A user's listing holds each negotiation they take part in exactly as
      often as the store does, and nothing else. */
  lemma UserNegotiationsCounts(negs: seq<Negotiation>, u: User)
    ensures forall n :: multiset(UserNegotiations(negs, Some(u)))[n]
                        == if Sees(u, n) then multiset(negs)[n] else 0
  {
    Seqs.FilterCounts(negs, (x: Negotiation) => Sees(u, x));
  }

  /** The listing keeps list order: a negotiation appended to the store
      comes last in the listing of every user who sees it. */
  lemma UserNegotiationsAppend(negs: seq<Negotiation>, n: Negotiation, u: User)
    ensures UserNegotiations(negs + [n], Some(u))
         == UserNegotiations(negs, Some(u)) + (if Sees(u, n) then [n] else [])
  {
    Seqs.FilterSnoc(negs, n, (x: Negotiation) => Sees(u, x));
  }

  // ------------------------------------------------------------------
  // The operations, on values

  function StartContent(initialOffer: int): string {
    "I'm interested in this product. My offer is $" + Decimal.IntToString(initialOffer) + "."
  }

  /** startNegotiation: a logged-in buyer appends a new active negotiation
      seeded with one message carrying the initial offer. */
  function Start(negs: seq<Negotiation>, user: Option<User>, productId: string, sellerId: string,
                 initialOffer: int, msgId: string, now: string): (r: Result<seq<Negotiation>, NegotiationError>)
    ensures r.Ok? <==> user.Some? && user.value.role == Buyer
    ensures user.None? ==> r == Err(NotLoggedIn)
    ensures user.Some? && user.value.role != Buyer ==> r == Err(OnlyBuyersCanStart)
    ensures r.Ok? ==> |r.value| == |negs| + 1 && r.value[..|negs|] == negs
    ensures r.Ok? ==>
      var n := r.value[|negs|];
      && n.id == NegotiationId(|negs| + 1)
      && n.productId == productId && n.buyerId == user.value.id && n.sellerId == sellerId
      && n.status == Active && n.currentOffer == initialOffer
      && |n.messages| == 1
      && n.messages[0].senderId == user.value.id && n.messages[0].senderRole == Buyer
      && n.messages[0].offerAmount == Some(initialOffer)
  {
    match user
    case None => Err(NotLoggedIn)
    case Some(u) =>
      if u.role != Buyer then Err(OnlyBuyersCanStart)
      else
        var seed := Message(msgId, u.id, Buyer, StartContent(initialOffer), Some(initialOffer), now);
        var n := Negotiation(NegotiationId(|negs| + 1), productId, u.id, sellerId, [seed],
                             initialOffer, Active, now, now);
        assert (negs + [n])[..|negs|] == negs;
        Ok(negs + [n])
  }

  /** The message `sendMessage` appends for user `u`. */
  function SentMessage(u: User, content: string, offerAmount: Option<int>, msgId: string, now: string): Message {
    Message(msgId, u.id, u.role, content, offerAmount, now)
  }

  /** sendMessage: a participant appends a message to the negotiation.
      The status is not consulted. */
  function Send(negs: seq<Negotiation>, user: Option<User>, negotiationId: string, content: string,
                offerAmount: Option<int>, msgId: string, now: string): (r: Result<seq<Negotiation>, NegotiationError>)
    ensures user.None? ==> r == Err(NotLoggedIn)
    ensures user.Some? && IndexOf(negs, negotiationId).None? ==> r == Err(NotFound)
    ensures user.Some? && IndexOf(negs, negotiationId).Some? ==>
      (r.Ok? <==> IsParticipant(negs[IndexOf(negs, negotiationId).value], user.value.id))
      && (r.Err? ==> r.error == NotParticipant)
    ensures r.Ok? ==> |r.value| == |negs|
  {
    match user
    case None => Err(NotLoggedIn)
    case Some(u) =>
      match IndexOf(negs, negotiationId)
      case None => Err(NotFound)
      case Some(k) =>
        if !IsParticipant(negs[k], u.id) then Err(NotParticipant)
        else
          var m := SentMessage(u, content, offerAmount, msgId, now);
          Ok(Seqs.ReplaceWhere(negs, (n: Negotiation) => n.id == negotiationId,
                               (n: Negotiation) => WithMessage(n, m, now)))
  }

  /** The only role check of acceptOffer: a seller must be this
      negotiation's seller; a buyer or a technician passes. */
  predicate MayAccept(u: User, n: Negotiation) {
    !(u.role == Seller && u.id != n.sellerId)
  }

  /** The only role check of completePurchase: a buyer must be this
      negotiation's buyer; a seller or a technician passes. */
  predicate MayComplete(u: User, n: Negotiation) {
    !(u.role == Buyer && u.id != n.buyerId)
  }

  /** acceptOffer: sets the negotiation's status to accepted, whatever it was. */
  function Accept(negs: seq<Negotiation>, user: Option<User>, negotiationId: string, now: string)
    : (r: Result<seq<Negotiation>, NegotiationError>)
    ensures user.None? ==> r == Err(NotLoggedIn)
    ensures user.Some? && IndexOf(negs, negotiationId).None? ==> r == Err(NotFound)
    ensures user.Some? && IndexOf(negs, negotiationId).Some? ==>
      var n := negs[IndexOf(negs, negotiationId).value];
      && (r.Ok? <==> user.value.role != Seller || user.value.id == n.sellerId)
      && (r.Err? ==> r.error == OnlySellerCanAccept)
    ensures r.Ok? ==> |r.value| == |negs|
  {
    match user
    case None => Err(NotLoggedIn)
    case Some(u) =>
      match IndexOf(negs, negotiationId)
      case None => Err(NotFound)
      case Some(k) =>
        if !MayAccept(u, negs[k]) then Err(OnlySellerCanAccept)
        else Ok(Seqs.ReplaceWhere(negs, (n: Negotiation) => n.id == negotiationId,
                                  (n: Negotiation) => WithStatus(n, Accepted, now)))
  }

  /** completePurchase: sets the negotiation's status to completed, whatever it was. */
  function Complete(negs: seq<Negotiation>, user: Option<User>, negotiationId: string, now: string)
    : (r: Result<seq<Negotiation>, NegotiationError>)
    ensures user.None? ==> r == Err(NotLoggedIn)
    ensures user.Some? && IndexOf(negs, negotiationId).None? ==> r == Err(NotFound)
    ensures user.Some? && IndexOf(negs, negotiationId).Some? ==>
      var n := negs[IndexOf(negs, negotiationId).value];
      && (r.Ok? <==> user.value.role != Buyer || user.value.id == n.buyerId)
      && (r.Err? ==> r.error == OnlyBuyerCanComplete)
    ensures r.Ok? ==> |r.value| == |negs|
  {
    match user
    case None => Err(NotLoggedIn)
    case Some(u) =>
      match IndexOf(negs, negotiationId)
      case None => Err(NotFound)
      case Some(k) =>
        if !MayComplete(u, negs[k]) then Err(OnlyBuyerCanComplete)
        else Ok(Seqs.ReplaceWhere(negs, (n: Negotiation) => n.id == negotiationId,
                                  (n: Negotiation) => WithStatus(n, Completed, now)))
  }

  // ------------------------------------------------------------------
  // What each operation preserves and changes

  /** A successful start keeps the invariant, and its new id finds the new
      negotiation, which every one of its buyer's listings ends with. */
  lemma StartKeepsInvariant(negs: seq<Negotiation>, user: Option<User>, productId: string, sellerId: string,
                            initialOffer: int, msgId: string, now: string)
    requires StoreInvariant(negs)
    requires Start(negs, user, productId, sellerId, initialOffer, msgId, now).Ok?
    ensures var after := Start(negs, user, productId, sellerId, initialOffer, msgId, now).value;
      && StoreInvariant(after)
      && NegotiationById(after, NegotiationId(|negs| + 1)) == Some(after[|negs|])
      && UserNegotiations(after, user) == UserNegotiations(negs, user) + [after[|negs|]]
  {
    var after := Start(negs, user, productId, sellerId, initialOffer, msgId, now).value;
    var n := after[|negs|];
    assert after == negs + [n];
    SeedWellFormed(n);
    AppendKeepsInvariant(negs, n);
    CanonicalLookup(after, |negs|);
    UserNegotiationsAppend(negs, n, user.value);
  }

  /** A negotiation holding only its buyer's opening offer is well formed. */
  lemma SeedWellFormed(n: Negotiation)
    requires |n.messages| == 1 && n.messages[0].senderId == n.buyerId
    requires n.messages[0].offerAmount == Some(n.currentOffer)
    ensures WellFormed(n)
  {
    assert n.messages[..0] == [];
  }

  /** Appending a well-formed negotiation under the next id keeps the invariant. */
  lemma AppendKeepsInvariant(negs: seq<Negotiation>, n: Negotiation)
    requires StoreInvariant(negs) && WellFormed(n) && n.id == NegotiationId(|negs| + 1)
    ensures StoreInvariant(negs + [n])
  {
    forall i | 0 <= i < |negs| + 1 ensures WellFormed((negs + [n])[i]) && (negs + [n])[i].id == NegotiationId(i + 1) {
      if i < |negs| { assert (negs + [n])[i] == negs[i]; }
    }
  }

  /** A successful send changes only the target negotiation: its ledger
      gains exactly the new message at the end, its offer follows the
      ledger, its status is kept, and the invariant is kept. */
  lemma SendChangesOnlyTarget(negs: seq<Negotiation>, user: Option<User>, negotiationId: string, content: string,
                              offerAmount: Option<int>, msgId: string, now: string)
    requires StoreInvariant(negs)
    requires Send(negs, user, negotiationId, content, offerAmount, msgId, now).Ok?
    ensures var after := Send(negs, user, negotiationId, content, offerAmount, msgId, now).value;
      var k := IndexOf(negs, negotiationId).value;
      var m := SentMessage(user.value, content, offerAmount, msgId, now);
      && after == negs[k := after[k]]
      && after[k].messages == negs[k].messages + [m]
      && after[k].currentOffer == (if CarriesOffer(m) then m.offerAmount.value else negs[k].currentOffer)
      && after[k].status == negs[k].status
      && StoreInvariant(after)
  {
    var k := IndexOf(negs, negotiationId).value;
    var m := SentMessage(user.value, content, offerAmount, msgId, now);
    var hit := (n: Negotiation) => n.id == negotiationId;
    forall j | 0 <= j < |negs| && j != k ensures !hit(negs[j]) {
      if hit(negs[j]) { CanonicalIdsDistinct(negs, j, k); }
    }
    Seqs.ReplaceWhereSingle(negs, hit, (n: Negotiation) => WithMessage(n, m, now), k);
    var after := Send(negs, user, negotiationId, content, offerAmount, msgId, now).value;
    assert after == negs[k := WithMessage(negs[k], m, now)];
    WithMessageTracksLedger(negs[k], m, now);
    assert WellFormed(after[k]) by {
      var msgs := after[k].messages;
      forall i | 0 <= i < |msgs| ensures IsParticipant(after[k], msgs[i].senderId) {
        if i < |negs[k].messages| { assert msgs[i] == negs[k].messages[i]; }
      }
    }
  }

  /** A status change touches only the target negotiation, and of it only
      the status and the update time. */
  lemma {:induction false} StatusChangeOnlyTarget(negs: seq<Negotiation>, negotiationId: string,
                                                  s: NegotiationStatus, now: string, k: nat)
    requires StoreInvariant(negs)
    requires IndexOf(negs, negotiationId) == Some(k)
    ensures var after := Seqs.ReplaceWhere(negs, (n: Negotiation) => n.id == negotiationId,
                                           (n: Negotiation) => WithStatus(n, s, now));
      && after == negs[k := after[k]]
      && after[k].status == s && after[k].updatedAt == now
      && after[k].(status := negs[k].status, updatedAt := negs[k].updatedAt) == negs[k]
      && after[k].messages == negs[k].messages
      && after[k].currentOffer == negs[k].currentOffer
      && StoreInvariant(after)
  {
    var hit := (n: Negotiation) => n.id == negotiationId;
    forall j | 0 <= j < |negs| && j != k ensures !hit(negs[j]) {
      if hit(negs[j]) { CanonicalIdsDistinct(negs, j, k); }
    }
    Seqs.ReplaceWhereSingle(negs, hit, (n: Negotiation) => WithStatus(n, s, now), k);
  }

  /** A successful accept sets the target's status to accepted and its
      update time, and changes nothing else: not its ledger, not its offer,
      not another negotiation. */
  lemma AcceptChangesOnlyStatus(negs: seq<Negotiation>, user: Option<User>, negotiationId: string, now: string)
    requires StoreInvariant(negs)
    requires Accept(negs, user, negotiationId, now).Ok?
    ensures var after := Accept(negs, user, negotiationId, now).value;
      var k := IndexOf(negs, negotiationId).value;
      && after == negs[k := after[k]]
      && after[k].status == Accepted && after[k].updatedAt == now
      && after[k].(status := negs[k].status, updatedAt := negs[k].updatedAt) == negs[k]
      && after[k].messages == negs[k].messages
      && after[k].currentOffer == negs[k].currentOffer
      && StoreInvariant(after)
  {
    StatusChangeOnlyTarget(negs, negotiationId, Accepted, now, IndexOf(negs, negotiationId).value);
  }

  /** A successful completion sets the target's status to completed and its
      update time, and changes nothing else. */
  lemma CompleteChangesOnlyStatus(negs: seq<Negotiation>, user: Option<User>, negotiationId: string, now: string)
    requires StoreInvariant(negs)
    requires Complete(negs, user, negotiationId, now).Ok?
    ensures var after := Complete(negs, user, negotiationId, now).value;
      var k := IndexOf(negs, negotiationId).value;
      && after == negs[k := after[k]]
      && after[k].status == Completed && after[k].updatedAt == now
      && after[k].(status := negs[k].status, updatedAt := negs[k].updatedAt) == negs[k]
      && after[k].messages == negs[k].messages
      && after[k].currentOffer == negs[k].currentOffer
      && StoreInvariant(after)
  {
    StatusChangeOnlyTarget(negs, negotiationId, Completed, now, IndexOf(negs, negotiationId).value);
  }

  // ------------------------------------------------------------------
  // Histories of operations

  /** One call into the store, with the user logged in at the time and the
      message id and timestamp the clock gave it. */
  datatype Command =
    | StartCmd(productId: string, sellerId: string, initialOffer: int)
    | SendCmd(negotiationId: string, content: string, offerAmount: Option<int>)
    | AcceptCmd(negotiationId: string)
    | CompleteCmd(negotiationId: string)

  datatype Call = Call(user: Option<User>, command: Command, msgId: string, now: string)

  function Apply(negs: seq<Negotiation>, c: Call): Result<seq<Negotiation>, NegotiationError> {
    match c.command
    case StartCmd(p, s, o) => Start(negs, c.user, p, s, o, c.msgId, c.now)
    case SendCmd(id, content, o) => Send(negs, c.user, id, content, o, c.msgId, c.now)
    case AcceptCmd(id) => Accept(negs, c.user, id, c.now)
    case CompleteCmd(id) => Complete(negs, c.user, id, c.now)
  }

  /** The list after a history of calls; a call that throws changes nothing. */
  function Run(negs: seq<Negotiation>, calls: seq<Call>): seq<Negotiation>
    decreases |calls|
  {
    if calls == [] then negs
    else
      var next := match Apply(negs, calls[0]) case Ok(after) => after case Err(_) => negs;
      Run(next, calls[1..])
  }

  /** `b` is a later version of `a`: same id, product, parties and creation
      time, and a ledger that has only grown at its end. */
  ghost predicate Extends(a: Negotiation, b: Negotiation) {
    && b.id == a.id && b.productId == a.productId
    && b.buyerId == a.buyerId && b.sellerId == a.sellerId && b.createdAt == a.createdAt
    && |a.messages| <= |b.messages| && b.messages[..|a.messages|] == a.messages
  }

  /** Nothing is ever removed from the store, and each negotiation only
      ever extends. */
  ghost predicate Evolves(before: seq<Negotiation>, after: seq<Negotiation>) {
    |before| <= |after| && forall i :: 0 <= i < |before| ==> Extends(before[i], after[i])
  }

  lemma EvolvesTransitive(a: seq<Negotiation>, b: seq<Negotiation>, c: seq<Negotiation>)
    requires Evolves(a, b) && Evolves(b, c)
    ensures Evolves(a, c)
  {
    forall i | 0 <= i < |a| ensures Extends(a[i], c[i]) {
      var x, y, z := a[i].messages, b[i].messages, c[i].messages;
      assert z[..|x|] == z[..|y|][..|x|];
    }
  }

  /** Replacing one entry by a later version of it evolves the list. */
  lemma EvolvesAt(negs: seq<Negotiation>, k: nat, n: Negotiation)
    requires k < |negs| && Extends(negs[k], n)
    ensures Evolves(negs, negs[k := n])
  {
    forall i | 0 <= i < |negs| && i != k ensures Extends(negs[i], negs[k := n][i]) {
      assert negs[i].messages[..|negs[i].messages|] == negs[i].messages;
    }
  }

  lemma StartEvolves(negs: seq<Negotiation>, user: Option<User>, productId: string, sellerId: string,
                     initialOffer: int, msgId: string, now: string)
    requires StoreInvariant(negs)
    requires Start(negs, user, productId, sellerId, initialOffer, msgId, now).Ok?
    ensures var after := Start(negs, user, productId, sellerId, initialOffer, msgId, now).value;
      StoreInvariant(after) && Evolves(negs, after)
    ensures var after := Start(negs, user, productId, sellerId, initialOffer, msgId, now).value;
      forall i :: 0 <= i < |negs| ==> after[i] == negs[i]
  {
    var after := Start(negs, user, productId, sellerId, initialOffer, msgId, now).value;
    StartKeepsInvariant(negs, user, productId, sellerId, initialOffer, msgId, now);
    EvolvesAppend(negs, after[|negs|]);
    assert after == negs + [after[|negs|]];
  }

  lemma SendEvolves(negs: seq<Negotiation>, user: Option<User>, negotiationId: string, content: string,
                    offerAmount: Option<int>, msgId: string, now: string)
    requires StoreInvariant(negs)
    requires Send(negs, user, negotiationId, content, offerAmount, msgId, now).Ok?
    ensures var after := Send(negs, user, negotiationId, content, offerAmount, msgId, now).value;
      StoreInvariant(after) && Evolves(negs, after)
  {
    var after := Send(negs, user, negotiationId, content, offerAmount, msgId, now).value;
    SendChangesOnlyTarget(negs, user, negotiationId, content, offerAmount, msgId, now);
    var k := IndexOf(negs, negotiationId).value;
    assert negs[k].messages == after[k].messages[..|negs[k].messages|];
    EvolvesAt(negs, k, after[k]);
  }

  lemma AcceptEvolves(negs: seq<Negotiation>, user: Option<User>, negotiationId: string, now: string)
    requires StoreInvariant(negs)
    requires Accept(negs, user, negotiationId, now).Ok?
    ensures var after := Accept(negs, user, negotiationId, now).value;
      StoreInvariant(after) && Evolves(negs, after)
    ensures var after := Accept(negs, user, negotiationId, now).value;
      forall i :: 0 <= i < |negs| ==> after[i].messages == negs[i].messages
  {
    var after := Accept(negs, user, negotiationId, now).value;
    AcceptChangesOnlyStatus(negs, user, negotiationId, now);
    var k := IndexOf(negs, negotiationId).value;
    assert after[k].messages[..|negs[k].messages|] == negs[k].messages;
    EvolvesAt(negs, k, after[k]);
  }

  lemma CompleteEvolves(negs: seq<Negotiation>, user: Option<User>, negotiationId: string, now: string)
    requires StoreInvariant(negs)
    requires Complete(negs, user, negotiationId, now).Ok?
    ensures var after := Complete(negs, user, negotiationId, now).value;
      StoreInvariant(after) && Evolves(negs, after)
    ensures var after := Complete(negs, user, negotiationId, now).value;
      forall i :: 0 <= i < |negs| ==> after[i].messages == negs[i].messages
  {
    var after := Complete(negs, user, negotiationId, now).value;
    CompleteChangesOnlyStatus(negs, user, negotiationId, now);
    var k := IndexOf(negs, negotiationId).value;
    assert after[k].messages[..|negs[k].messages|] == negs[k].messages;
    EvolvesAt(negs, k, after[k]);
  }

  /** Appending a negotiation evolves the list. */
  lemma EvolvesAppend(negs: seq<Negotiation>, n: Negotiation)
    ensures Evolves(negs, negs + [n])
  {
    forall i | 0 <= i < |negs| ensures Extends(negs[i], (negs + [n])[i]) {
      assert negs[i].messages[..|negs[i].messages|] == negs[i].messages;
    }
  }

  /** Every single call keeps the invariant and evolves the list. */
  lemma ApplyEvolves(negs: seq<Negotiation>, c: Call)
    requires StoreInvariant(negs)
    requires Apply(negs, c).Ok?
    ensures StoreInvariant(Apply(negs, c).value) && Evolves(negs, Apply(negs, c).value)
  {
    match c.command
    case StartCmd(p, s, o) => StartEvolves(negs, c.user, p, s, o, c.msgId, c.now);
    case SendCmd(id, content, o) => SendEvolves(negs, c.user, id, content, o, c.msgId, c.now);
    case AcceptCmd(id) => AcceptEvolves(negs, c.user, id, c.now);
    case CompleteCmd(id) => CompleteEvolves(negs, c.user, id, c.now);
  }

  /** Over any history of calls, from the loaded list or any list that
      satisfies the invariant: ids stay `n1, n2, ...`, every ledger stays
      seeded and among its two parties, every current offer equals the
      latest non-zero offer of its ledger, and nothing is ever removed,
      re-assigned or re-written. */
  lemma {:induction false} RunKeepsInvariant(negs: seq<Negotiation>, calls: seq<Call>)
    requires StoreInvariant(negs)
    ensures StoreInvariant(Run(negs, calls)) && Evolves(negs, Run(negs, calls))
    decreases |calls|
  {
    if calls != [] {
      var next := match Apply(negs, calls[0]) case Ok(after) => after case Err(_) => negs;
      if Apply(negs, calls[0]).Ok? {
        ApplyEvolves(negs, calls[0]);
      } else {
        forall i | 0 <= i < |negs| ensures Extends(negs[i], next[i]) {
          assert negs[i].messages[..|negs[i].messages|] == negs[i].messages;
        }
      }
      RunKeepsInvariant(next, calls[1..]);
      EvolvesTransitive(negs, next, Run(next, calls[1..]));
    }
  }

  // ------------------------------------------------------------------
  // The store

  class NegotiationStore {
    var negotiations: seq<Negotiation>
    var loadingNegotiations: bool

    ghost predicate Valid()
      reads this
    {
      StoreInvariant(negotiations)
    }

    /** The provider's initial state, before the list is loaded. */
    constructor ()
      ensures Valid() && negotiations == [] && loadingNegotiations
    {
      negotiations := [];
      loadingNegotiations := true;
    }

    /** The start-up effect: load the mock list. */
    method FinishLoading()
      modifies this
      ensures Valid() && negotiations == MockNegotiations && !loadingNegotiations
    {
      MockNegotiationsWellFormed();
      negotiations := MockNegotiations;
      loadingNegotiations := false;
    }

    method StartNegotiation(user: Option<User>, productId: string, sellerId: string, initialOffer: int,
                            msgId: string, now: string) returns (r: Result<string, NegotiationError>)
      requires Valid()
      modifies this`negotiations
      ensures Valid()
      ensures Start(old(negotiations), user, productId, sellerId, initialOffer, msgId, now).Err? ==>
        r == Err(Start(old(negotiations), user, productId, sellerId, initialOffer, msgId, now).error)
        && negotiations == old(negotiations)
      ensures Start(old(negotiations), user, productId, sellerId, initialOffer, msgId, now).Ok? ==>
        negotiations == Start(old(negotiations), user, productId, sellerId, initialOffer, msgId, now).value
        && r == Ok(NegotiationId(|old(negotiations)| + 1))
        && NegotiationById(negotiations, r.value) == Some(negotiations[|negotiations| - 1])
    {
      if user.None? {
        return Err(NotLoggedIn);
      }
      var u := user.value;
      if u.role != Buyer {
        return Err(OnlyBuyersCanStart);
      }
      var seed := Message(msgId, u.id, Buyer, StartContent(initialOffer), Some(initialOffer), now);
      var n := Negotiation(NegotiationId(|negotiations| + 1), productId, u.id, sellerId, [seed],
                           initialOffer, Active, now, now);
      StartKeepsInvariant(negotiations, user, productId, sellerId, initialOffer, msgId, now);
      negotiations := negotiations + [n];
      r := Ok(n.id);
    }

    method SendMessage(user: Option<User>, negotiationId: string, content: string, offerAmount: Option<int>,
                       msgId: string, now: string) returns (r: Outcome<NegotiationError>)
      requires Valid()
      modifies this`negotiations
      ensures Valid()
      ensures Send(old(negotiations), user, negotiationId, content, offerAmount, msgId, now).Err? ==>
        r == Fail(Send(old(negotiations), user, negotiationId, content, offerAmount, msgId, now).error)
        && negotiations == old(negotiations)
      ensures Send(old(negotiations), user, negotiationId, content, offerAmount, msgId, now).Ok? ==>
        r == Pass
        && negotiations == Send(old(negotiations), user, negotiationId, content, offerAmount, msgId, now).value
    {
      if user.None? {
        return Fail(NotLoggedIn);
      }
      var u := user.value;
      var k := IndexOf(negotiations, negotiationId);
      if k.None? {
        return Fail(NotFound);
      }
      if !IsParticipant(negotiations[k.value], u.id) {
        return Fail(NotParticipant);
      }
      SendChangesOnlyTarget(negotiations, user, negotiationId, content, offerAmount, msgId, now);
      var m := SentMessage(u, content, offerAmount, msgId, now);
      negotiations := negotiations[k.value := WithMessage(negotiations[k.value], m, now)];
      r := Pass;
    }

    method AcceptOffer(user: Option<User>, negotiationId: string, now: string) returns (r: Outcome<NegotiationError>)
      requires Valid()
      modifies this`negotiations
      ensures Valid()
      ensures Accept(old(negotiations), user, negotiationId, now).Err? ==>
        r == Fail(Accept(old(negotiations), user, negotiationId, now).error) && negotiations == old(negotiations)
      ensures Accept(old(negotiations), user, negotiationId, now).Ok? ==>
        r == Pass && negotiations == Accept(old(negotiations), user, negotiationId, now).value
    {
      if user.None? {
        return Fail(NotLoggedIn);
      }
      var k := IndexOf(negotiations, negotiationId);
      if k.None? {
        return Fail(NotFound);
      }
      if !MayAccept(user.value, negotiations[k.value]) {
        return Fail(OnlySellerCanAccept);
      }
      AcceptChangesOnlyStatus(negotiations, user, negotiationId, now);
      negotiations := negotiations[k.value := WithStatus(negotiations[k.value], Accepted, now)];
      r := Pass;
    }

    method CompletePurchase(user: Option<User>, negotiationId: string, now: string) returns (r: Outcome<NegotiationError>)
      requires Valid()
      modifies this`negotiations
      ensures Valid()
      ensures Complete(old(negotiations), user, negotiationId, now).Err? ==>
        r == Fail(Complete(old(negotiations), user, negotiationId, now).error) && negotiations == old(negotiations)
      ensures Complete(old(negotiations), user, negotiationId, now).Ok? ==>
        r == Pass && negotiations == Complete(old(negotiations), user, negotiationId, now).value
    {
      if user.None? {
        return Fail(NotLoggedIn);
      }
      var k := IndexOf(negotiations, negotiationId);
      if k.None? {
        return Fail(NotFound);
      }
      if !MayComplete(user.value, negotiations[k.value]) {
        return Fail(OnlyBuyerCanComplete);
      }
      CompleteChangesOnlyStatus(negotiations, user, negotiationId, now);
      negotiations := negotiations[k.value := WithStatus(negotiations[k.value], Completed, now)];
      r := Pass;
    }
  }
}
