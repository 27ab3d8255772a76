/** The negotiation chat panel (src/components/negotiation/NegotiationChat.tsx):
    the local state of the composer, the checks its handlers make before
    calling the negotiation store, and which controls each role sees in
    each status.

    The panel's state is a class whose fields are the component's state
    hooks; the handlers are its methods. The store is the
    `Negotiations.NegotiationStore` the handlers call, and the logged-in
    user, the message id and the time are parameters. The number the
    manual-offer field parses to is a parameter of
    `HandleManualOfferSubmit` (`None` standing for NaN). */
module Chat {
  import opened Wrappers
  import opened Types
  import Decimal
  import Negotiations

  // ------------------------------------------------------------------
  // Trimming, as `String.prototype.trim` does

  /** The white space and line terminators `trim` removes. */
  predicate IsSpace(c: char) {
    var n := c as int;
    || n == 0x09 || n == 0x0A || n == 0x0B || n == 0x0C || n == 0x0D || n == 0x20
    || n == 0xA0 || n == 0x1680 || (0x2000 <= n <= 0x200A) || n == 0x2028 || n == 0x2029
    || n == 0x202F || n == 0x205F || n == 0x3000 || n == 0xFEFF
  }

  predicate IsBlank(s: string) {
    forall i :: 0 <= i < |s| ==> IsSpace(s[i])
  }

  /** `s` without its leading white space. */
  function TrimStart(s: string): (r: string)
    ensures |r| <= |s| && r == s[|s| - |r|..]
    ensures forall i :: 0 <= i < |s| - |r| ==> IsSpace(s[i])
    ensures r == [] || !IsSpace(r[0])
  {
    if s == [] || !IsSpace(s[0]) then s else TrimStart(s[1..])
  }

  /** `s` without its trailing white space. */
  function TrimEnd(s: string): (r: string)
    ensures |r| <= |s| && r == s[..|r|]
    ensures forall i :: |r| <= i < |s| ==> IsSpace(s[i])
    ensures r == [] || !IsSpace(r[|r| - 1])
  {
    if s == [] || !IsSpace(s[|s| - 1]) then s else TrimEnd(s[..|s| - 1])
  }

  /** `s.trim()`: neither starts nor ends with white space, and is empty
      exactly when `s` is all white space. */
  function Trim(s: string): (r: string)
    ensures |r| <= |s|
    ensures r == [] || (!IsSpace(r[0]) && !IsSpace(r[|r| - 1]))
    ensures r == [] <==> IsBlank(s)
  {
    var t := TrimStart(s);
    var r := TrimEnd(t);
    r
  }

  /** Trimming only removes white space from the two ends: the result is a
      contiguous slice of `s`, and what lies before and after it is blank. */
  lemma TrimIsSlice(s: string)
    ensures exists a :: 0 <= a <= |s| - |Trim(s)| && Trim(s) == s[a..][..|Trim(s)|]
                        && IsBlank(s[..a]) && IsBlank(s[a + |Trim(s)|..])
  {
    var t := TrimStart(s);
    var r := Trim(s);
    var a := |s| - |t|;
    assert r == s[a..][..|r|];
    assert IsBlank(s[..a]);
    var tail := s[a + |r|..];
    assert IsBlank(tail) by {
      forall i | 0 <= i < |tail| ensures IsSpace(tail[i]) {
        assert tail[i] == t[|r| + i];
      }
    }
  }

  // ------------------------------------------------------------------
  // What handleSendMessage sends

  /** The content written for an offer sent without text. */
  function OfferText(amount: int): string {
    "I offer $" + Decimal.IntToString(amount) + " for this item."
  }

  /** JavaScript truthiness of the staged offer: `null` and `0` are false. */
  predicate OfferIsTruthy(staged: Option<int>) {
    staged.Some? && staged.value != 0
  }

  /** `message || (offerAmount ? text : '')`: the typed message, untrimmed,
      when it is not empty; otherwise the offer text when an offer is staged. */
  function ComposeContent(message: string, staged: Option<int>): (c: string)
    ensures message != [] ==> c == message
    ensures message == [] && OfferIsTruthy(staged) ==> c == OfferText(staged.value)
    ensures c == [] <==> message == [] && !OfferIsTruthy(staged)
  {
    if message != [] then message
    else if OfferIsTruthy(staged) then OfferText(staged.value)
    else ""
  }

  /** `offerAmount || undefined`: the staged offer, with 0 dropped. */
  function OfferToSend(staged: Option<int>): (o: Option<int>)
    ensures o.Some? <==> OfferIsTruthy(staged)
    ensures o.Some? ==> o == staged
  {
    if OfferIsTruthy(staged) then staged else None
  }

  /** The early return of handleSendMessage is not taken: the trimmed
      message is non-empty or an offer is staged. */
  predicate ShouldSubmit(message: string, staged: Option<int>) {
    !(Trim(message) == [] && staged.None?)
  }

  /** What the panel ever stages: nothing, or an offer above zero. */
  predicate StagedOffer(staged: Option<int>) {
    staged.None? || staged.value > 0
  }

  /** Past the early return, the content is empty only for a staged offer
      of 0 with nothing typed, which the panel never stages; every offer it
      stages is passed to the store unchanged. */
  lemma SubmittedContentNotEmpty(message: string, staged: Option<int>)
    requires ShouldSubmit(message, staged)
    ensures ComposeContent(message, staged) == [] <==> message == [] && staged == Some(0)
    ensures StagedOffer(staged) ==> ComposeContent(message, staged) != [] && OfferToSend(staged) == staged
  {
    if message == [] {
      assert IsBlank(message);
    }
  }

  /** A message sent from the panel reaches the store as the last message
      of its negotiation, with non-empty content, and moves the current
      offer to the staged offer when there is one. */
  lemma PanelSendUpdatesLedger(negs: seq<Negotiation>, user: Option<User>, negotiationId: string,
                               message: string, staged: Option<int>, msgId: string, now: string)
    requires Negotiations.StoreInvariant(negs)
    requires StagedOffer(staged) && ShouldSubmit(message, staged)
    requires Negotiations.Send(negs, user, negotiationId, ComposeContent(message, staged),
                               OfferToSend(staged), msgId, now).Ok?
    ensures var after := Negotiations.Send(negs, user, negotiationId, ComposeContent(message, staged),
                                           OfferToSend(staged), msgId, now).value;
      var k := Negotiations.IndexOf(negs, negotiationId).value;
      var sent := after[k].messages[|after[k].messages| - 1];
      && |after[k].messages| == |negs[k].messages| + 1
      && sent.content != [] && sent.offerAmount == staged && sent.senderId == user.value.id
      && after[k].currentOffer == (if staged.Some? then staged.value else negs[k].currentOffer)
  {
    SubmittedContentNotEmpty(message, staged);
    Negotiations.SendChangesOnlyTarget(negs, user, negotiationId, ComposeContent(message, staged),
                                       OfferToSend(staged), msgId, now);
  }

  // ------------------------------------------------------------------
  // Which controls are shown

  /** The controls the panel renders, each shown or not. */
  datatype Controls = Controls(
    composer: bool,           // the message form and its buttons
    stagedOfferBanner: bool,  // "Making an offer" with its Cancel button
    manualOfferPanel: bool,   // the amount field with "Set Offer"
    makeOffer: bool,
    counterOffer: bool,
    acceptOffer: bool,        // "Accept Current Offer"
    completePurchase: bool,
    contactInfo: bool,        // "Purchase Completed!" with the contact block
    sellerContact: bool,      // the seller's phone, shown to a buyer
    buyerContact: bool)       // the block shown to a seller

  /** The status change each button asks the store for is one step of
      active, then accepted, then completed. */
  predicate LifecycleStep(from: NegotiationStatus, to: NegotiationStatus) {
    (from == Active && to == Accepted) || (from == Accepted && to == Completed)
  }

  /** The rendering conditions, for a viewer with this role (`None` when
      nobody is logged in), a negotiation in this status, the manual-offer
      panel open or not, and the staged offer. */
  function VisibleControls(role: Option<UserRole>, status: NegotiationStatus, showManualOffer: bool,
                           staged: Option<int>): (c: Controls)
    ensures c.composer <==> status == Active
    ensures c.acceptOffer <==> role == Some(Seller) && status == Active
    ensures c.completePurchase <==> role == Some(Buyer) && status == Accepted
    ensures c.contactInfo <==> status == Completed
    ensures c.makeOffer <==> role == Some(Buyer) && status == Active && !showManualOffer
    ensures c.counterOffer <==> role == Some(Seller) && status == Active && !showManualOffer
    ensures c.stagedOfferBanner <==> status == Active && staged.Some?
    ensures c.manualOfferPanel <==> status == Active && showManualOffer
    ensures c.sellerContact <==> role == Some(Buyer) && status == Completed
    ensures c.buyerContact <==> role == Some(Seller) && status == Completed
    ensures c.stagedOfferBanner || c.manualOfferPanel ==> c.composer
    ensures c.acceptOffer ==> LifecycleStep(status, Accepted)
    ensures c.completePurchase ==> LifecycleStep(status, Completed)
    ensures (c.composer ==> !c.completePurchase && !c.contactInfo) && (c.completePurchase ==> !c.contactInfo)
    ensures status == Rejected ==> c == Controls(false, false, false, false, false, false, false, false, false, false)
  {
    var active := status == Active;
    var completed := status == Completed;
    Controls(
      composer := active,
      stagedOfferBanner := active && staged.Some?,
      manualOfferPanel := active && showManualOffer,
      makeOffer := active && role == Some(Buyer) && !showManualOffer,
      counterOffer := active && role == Some(Seller) && !showManualOffer,
      acceptOffer := active && role == Some(Seller),
      completePurchase := status == Accepted && role == Some(Buyer),
      contactInfo := completed,
      sellerContact := completed && role == Some(Buyer),
      buyerContact := completed && role == Some(Seller))
  }

  /** Accepting through the button the panel shows moves the negotiation
      one step along the lifecycle, although the store itself does not
      look at the status. */
  lemma PanelAcceptFollowsLifecycle(negs: seq<Negotiation>, u: User, negotiationId: string, now: string,
                                    showManualOffer: bool, staged: Option<int>)
    requires Negotiations.StoreInvariant(negs)
    requires Negotiations.IndexOf(negs, negotiationId).Some?
    requires VisibleControls(Some(u.role), negs[Negotiations.IndexOf(negs, negotiationId).value].status,
                             showManualOffer, staged).acceptOffer
    requires Negotiations.Accept(negs, Some(u), negotiationId, now).Ok?
    ensures var k := Negotiations.IndexOf(negs, negotiationId).value;
      LifecycleStep(negs[k].status, Negotiations.Accept(negs, Some(u), negotiationId, now).value[k].status)
  {
    Negotiations.AcceptChangesOnlyStatus(negs, Some(u), negotiationId, now);
  }

  /** Completing through handleCompletePurchase, whose guard passes only an
      accepted negotiation, moves it one step along the lifecycle. */
  lemma PanelCompleteFollowsLifecycle(negs: seq<Negotiation>, user: Option<User>, negotiationId: string, now: string)
    requires Negotiations.StoreInvariant(negs)
    requires Negotiations.IndexOf(negs, negotiationId).Some?
    requires negs[Negotiations.IndexOf(negs, negotiationId).value].status == Accepted
    requires Negotiations.Complete(negs, user, negotiationId, now).Ok?
    ensures var k := Negotiations.IndexOf(negs, negotiationId).value;
      LifecycleStep(negs[k].status, Negotiations.Complete(negs, user, negotiationId, now).value[k].status)
  {
    Negotiations.CompleteChangesOnlyStatus(negs, user, negotiationId, now);
  }

  /** Without the panel's guard the store skips a step: the buyer of the
      loaded negotiation, still active, can complete it at once. */
  lemma StoreAloneSkipsAcceptance(buyer: User, now: string)
    requires buyer.id == "b1" && buyer.role == Buyer
    ensures Negotiations.MockNegotiations[0].status == Active
    ensures Negotiations.Complete(Negotiations.MockNegotiations, Some(buyer), "n1", now).Ok?
    ensures Negotiations.Complete(Negotiations.MockNegotiations, Some(buyer), "n1", now).value[0].status == Completed
    ensures !LifecycleStep(Active, Completed)
  {
    Negotiations.MockNegotiationsWellFormed();
    assert Negotiations.NegotiationId(1) == "n1";
    Negotiations.CanonicalLookup(Negotiations.MockNegotiations, 0);
    Negotiations.CompleteChangesOnlyStatus(Negotiations.MockNegotiations, Some(buyer), "n1", now);
  }

  // ------------------------------------------------------------------
  // The panel

  /** Whether a handler called the store, and what the store answered. */
  datatype Attempt = Skipped | Called(outcome: Outcome<Negotiations.NegotiationError>)

  /** The values of the panel's state hooks. */
  datatype PanelState = PanelState(message: string, offerAmount: Option<int>, showManualOffer: bool)

  class ChatPanel {
    var message: string
    var offerAmount: Option<int>
    var showManualOffer: bool

    ghost predicate Valid()
      reads this
    {
      StagedOffer(offerAmount)
    }

    /** The composer's fields, together. */
    function State(): PanelState
      reads this
    {
      PanelState(message, offerAmount, showManualOffer)
    }

    constructor ()
      ensures Valid() && message == [] && offerAmount == None && !showManualOffer
    {
      message := [];
      offerAmount := None;
      showManualOffer := false;
    }

    /** The message field's change handler. */
    method TypeMessage(text: string)
      modifies this`message
      ensures message == text
    {
      message := text;
    }

    /** "Make Offer" and "Counter Offer". */
    method OpenManualOffer()
      modifies this`showManualOffer
      ensures showManualOffer
    {
      showManualOffer := true;
    }

    /** The close button of the manual-offer panel. */
    method CloseManualOffer()
      modifies this`showManualOffer
      ensures !showManualOffer
    {
      showManualOffer := false;
    }

    /** "Cancel" on the staged-offer banner. */
    method CancelOffer()
      modifies this`offerAmount
      ensures Valid() && offerAmount == None
    {
      offerAmount := None;
    }

    /** handleManualOfferSubmit, given what the field parses to: only an
        amount above zero is staged, and then the panel closes. */
    method HandleManualOfferSubmit(parsed: Option<int>)
      requires Valid()
      modifies this`offerAmount, this`showManualOffer
      ensures Valid()
      ensures parsed.Some? && parsed.value > 0 ==> offerAmount == parsed && !showManualOffer
      ensures !(parsed.Some? && parsed.value > 0) ==>
        offerAmount == old(offerAmount) && showManualOffer == old(showManualOffer)
    {
      if parsed.Some? && parsed.value > 0 {
        offerAmount := parsed;
        showManualOffer := false;
      }
    }

    /** handleSendMessage: skip when there is nothing to send; otherwise
        send the composed content and the staged offer, and clear the
        composer only when the store accepts. */
    method HandleSendMessage(store: Negotiations.NegotiationStore, user: Option<User>, negotiationId: string,
                             msgId: string, now: string) returns (r: Attempt)
      requires Valid() && store.Valid()
      modifies this, store`negotiations
      ensures Valid() && store.Valid()
      ensures !ShouldSubmit(old(message), old(offerAmount)) ==>
        r == Skipped && store.negotiations == old(store.negotiations) && State() == old(State())
      ensures ShouldSubmit(old(message), old(offerAmount)) ==>
        var res := Negotiations.Send(old(store.negotiations), user, negotiationId,
                                     ComposeContent(old(message), old(offerAmount)),
                                     OfferToSend(old(offerAmount)), msgId, now);
        && (res.Err? ==>
              r == Called(Fail(res.error)) && store.negotiations == old(store.negotiations) && State() == old(State()))
        && (res.Ok? ==>
              r == Called(Pass) && store.negotiations == res.value && State() == PanelState([], None, false))
    {
      if !ShouldSubmit(message, offerAmount) {
        return Skipped;
      }
      var outcome := Submit(store, user, negotiationId, ComposeContent(message, offerAmount),
                            OfferToSend(offerAmount), msgId, now);
      r := Called(outcome);
    }

    /** The part of handleSendMessage past its early return. */
    method Submit(store: Negotiations.NegotiationStore, user: Option<User>, negotiationId: string,
                  content: string, offer: Option<int>, msgId: string, now: string)
      returns (outcome: Outcome<Negotiations.NegotiationError>)
      requires Valid() && store.Valid()
      modifies this, store`negotiations
      ensures Valid() && store.Valid()
      ensures var res := Negotiations.Send(old(store.negotiations), user, negotiationId, content, offer, msgId, now);
        && (res.Err? ==>
              outcome == Fail(res.error) && store.negotiations == old(store.negotiations) && State() == old(State()))
        && (res.Ok? ==>
              outcome == Pass && store.negotiations == res.value && State() == PanelState([], None, false))
    {
      outcome := store.SendMessage(user, negotiationId, content, offer, msgId, now);
      if outcome.Pass? {
        message := [];
        offerAmount := None;
        showManualOffer := false;
      }
    }

    /** handleAcceptOffer: no check of its own; the store decides. */
    method HandleAcceptOffer(store: Negotiations.NegotiationStore, user: Option<User>, negotiationId: string,
                             now: string) returns (r: Outcome<Negotiations.NegotiationError>)
      requires store.Valid()
      modifies store`negotiations
      ensures store.Valid()
      ensures var res := Negotiations.Accept(old(store.negotiations), user, negotiationId, now);
        && (res.Err? ==> r == Fail(res.error) && store.negotiations == old(store.negotiations))
        && (res.Ok? ==> r == Pass && store.negotiations == res.value)
    {
      r := store.AcceptOffer(user, negotiationId, now);
    }

    /** handleCompletePurchase: calls the store only when the negotiation
        it displays is accepted. */
    method HandleCompletePurchase(store: Negotiations.NegotiationStore, user: Option<User>,
                                  negotiation: Negotiation, now: string) returns (r: Attempt)
      requires store.Valid()
      modifies store`negotiations
      ensures store.Valid()
      ensures negotiation.status != Accepted ==> r == Skipped && store.negotiations == old(store.negotiations)
      ensures negotiation.status == Accepted ==>
        var res := Negotiations.Complete(old(store.negotiations), user, negotiation.id, now);
        && (res.Err? ==> r == Called(Fail(res.error)) && store.negotiations == old(store.negotiations))
        && (res.Ok? ==> r == Called(Pass) && store.negotiations == res.value)
    {
      if negotiation.status != Accepted {
        return Skipped;
      }
      var outcome := store.CompletePurchase(user, negotiation.id, now);
      r := Called(outcome);
    }
  }
}
