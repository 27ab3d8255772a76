# A model of the marketplace stores of my-bidding-platform

my-bidding-platform is a React marketplace. Sellers list second-hand
products, technicians verify them, and buyers negotiate a price with the
seller in a chat until the seller accepts an offer and the buyer completes
the purchase. All of its state lives in memory, in three React contexts,
and one chat component guards the calls into them. This project models
those stores and that guard logic in Dafny, and proves what they
guarantee.

One module per source file, plus three helper modules:

- `Types` (`types.dfy`) holds the records of `src/types/index.ts`. Each
  closed string union becomes a datatype, so a role is exactly one of
  seller, buyer and technician. A product status is exactly one of pending,
  verified and sold. A negotiation status is exactly one of active,
  accepted, rejected and completed. Optional fields (a user's phone, a
  message's offer, a product's technician data) are `Option`s.
- `Negotiations` (`negotiations.dfy`) models the negotiation store. Each
  operation exists twice:
  - as a function from the old list to the new list or an error (`Start`,
    `Send`, `Accept`, `Complete`), about which the lemmas are proved;
  - as a method of the class `NegotiationStore`, which updates its
    `negotiations` field in place and whose postcondition is that function.

  `StoreInvariant` holds at every reachable state:
  - the i-th negotiation has id `n{i+1}`;
  - every ledger is non-empty;
  - every sender is one of the two parties;
  - the current offer is the latest non-zero offer in the ledger.

  `RunKeepsInvariant` proves that any sequence of calls keeps this
  invariant. It also proves that ledgers only grow and that the parties
  never change.
- `Products` (`products.dfy`) models the product store in the same two
  forms: `Add`, `Update` and `Verify`, and the class `ProductStore`. It also
  has the role-filtered listings and the merge-update of a
  `Partial<Product>`.
- `Auth` (`auth.dfy`) models the mock user table and the authentication
  state, `Authenticate` and `AddUser` with the class `AuthStore`. It proves
  that emails and ids stay unique and that a newly registered user can log
  in.
- `Chat` (`chat.dfy`) models the chat panel:
  - its state hooks as the class `ChatPanel`;
  - the send, manual-offer and complete-purchase handlers;
  - `String.prototype.trim`;
  - the content and offer that a send passes to the store;
  - which controls each role sees in each status.
- `Wrappers`, `Seqs` and `Decimal` are helpers:
  - `Option`/`Result`/`Outcome`;
  - `filter`, `findIndex` and the `map` that rewrites the entries with a
    given id;
  - the decimal rendering of numbers in template literals.

The logged-in user is a parameter (`user: Option<User>`) of every store
operation that reads it, as the contexts read it from the authentication context. Ids
derived from the clock and ISO timestamps are parameters too (`msgId`,
`now`).

## Behaviour as the code has it

The model follows the code where a reading of the application's intent
would expect more checks:

- `sendMessage`, `acceptOffer` and `completePurchase` never look at the
  status. Only the chat panel keeps to active, then accepted, then
  completed. `Chat.StoreAloneSkipsAcceptance` exhibits the store completing
  a negotiation that is still active.
- `acceptOffer` rejects only a seller who is not this negotiation's seller.
  A buyer or a technician passes, whether a party or not.
- `completePurchase` likewise rejects only a buyer who is not this
  negotiation's buyer.
- The current offer becomes `offerAmount || currentOffer`, so an offer of 0
  leaves it unchanged. The initial offer is not validated and may be 0 or
  negative.
- No operation ever sets `rejected`.
- `startNegotiation` checks neither the product id nor the seller id, so a
  buyer may name themself as seller and a negotiation with the same buyer
  and seller can exist.
- `addProduct` accepts any logged-in user, whatever the role.
  `updateProduct` needs no user, and may even rewrite a product's id. For
  that reason product ids, unlike negotiation ids, are not an invariant.
- `verifyProduct` with an unknown id succeeds and changes nothing.
- `verifyProduct` ignores the product's status: a `sold` or already
  `verified` product becomes `verified` again.

## Model

| member | source | states |
|---|---|---|
| Negotiations.MockNegotiationsWellFormed | src/context/NegotiationContext.tsx:18-47 | the seeded list satisfies the store invariant; its current offer 680 is the latest offer in its ledger |
| Negotiations.LedgerOfferIsLatest | src/context/NegotiationContext.tsx:132 | the offer a ledger stands at is the offer of its last message with a non-zero offer, and it is 0 exactly when no message carries one |
| Negotiations.WithMessageTracksLedger | src/context/NegotiationContext.tsx:126-137 | writing back a negotiation with one more message keeps its current offer equal to the ledger's offer |
| Negotiations.CanonicalIdsDistinct | src/context/NegotiationContext.tsx:83 | ids of the form `n{len+1}` never collide: equal ids mean the same position |
| Negotiations.IndexOf | src/context/NegotiationContext.tsx:110 | `find` by id: the position of the first negotiation with that id, or none when no negotiation has it |
| Negotiations.NegotiationById | src/context/NegotiationContext.tsx:217-219 | getNegotiationById returns the first negotiation with that id, or none exactly when no negotiation has it |
| Negotiations.CanonicalLookup | src/context/NegotiationContext.tsx:83-97 | in a reachable list the id `n{k+1}` finds exactly the k-th negotiation |
| Negotiations.UserNegotiations | src/context/NegotiationContext.tsx:208-215 | a buyer gets exactly the negotiations where they are the buyer, a seller exactly those where they are the seller, a technician or nobody gets none |
| Negotiations.UserNegotiationsCounts | src/context/NegotiationContext.tsx:211-214 | a user's listing holds each negotiation they take part in exactly as many times as the store does, and nothing else |
| Negotiations.UserNegotiationsAppend | src/context/NegotiationContext.tsx:211-214 | the listing keeps list order: an appended negotiation comes last in the listing of every user who sees it |
| Negotiations.Start | src/context/NegotiationContext.tsx:66-102 | fails with no user or a non-buyer; otherwise appends exactly one negotiation with id `n{len+1}`. The new negotiation is active, has the user as buyer and the initial offer as current offer, and holds one message from the buyer carrying that offer. The earlier entries are unchanged |
| Negotiations.Send | src/context/NegotiationContext.tsx:104-142 | fails with no user, an unknown id, or a user who is neither the buyer nor the seller; otherwise keeps the length |
| Negotiations.Accept | src/context/NegotiationContext.tsx:144-174 | fails with no user, an unknown id, or a seller who is not this negotiation's seller; succeeds for anybody else, whatever the status |
| Negotiations.Complete | src/context/NegotiationContext.tsx:176-206 | fails with no user, an unknown id, or a buyer who is not this negotiation's buyer; succeeds for anybody else, whatever the status |
| Negotiations.StartKeepsInvariant | src/context/NegotiationContext.tsx:73-97 | a successful start keeps the store invariant; the returned id finds the new negotiation, which the buyer's listing gains at its end |
| Negotiations.SeedWellFormed | src/context/NegotiationContext.tsx:73-92 | a negotiation holding only its buyer's opening offer is well formed |
| Negotiations.AppendKeepsInvariant | src/context/NegotiationContext.tsx:94 | appending a well-formed negotiation under the next id keeps the invariant |
| Negotiations.SendChangesOnlyTarget | src/context/NegotiationContext.tsx:126-137 | a successful send changes only the target: its ledger gains exactly the new message at the end; its offer becomes the message's offer if present and non-zero and is otherwise kept; its status is kept; every other negotiation is untouched; the invariant holds |
| Negotiations.StatusChangeOnlyTarget | src/context/NegotiationContext.tsx:157-167 | rewriting the status of the entry with a given id touches only that entry, and of it only its status and `updatedAt`, which becomes the update's time |
| Negotiations.AcceptChangesOnlyStatus | src/context/NegotiationContext.tsx:157-167 | a successful accept sets the target's status to accepted and its `updatedAt` to the update's time; every other field of it, its ledger, its offer and every other negotiation are unchanged |
| Negotiations.CompleteChangesOnlyStatus | src/context/NegotiationContext.tsx:189-199 | a successful completion sets the target's status to completed and its `updatedAt` to the update's time; every other field of it, its ledger, its offer and every other negotiation are unchanged |
| Negotiations.StartEvolves | src/context/NegotiationContext.tsx:94 | a successful start keeps the invariant and only appends: every existing negotiation is kept exactly, ledger included |
| Negotiations.SendEvolves | src/context/NegotiationContext.tsx:126-137 | a successful send keeps the invariant and only extends ledgers at their end; ids, parties and products are kept |
| Negotiations.AcceptEvolves | src/context/NegotiationContext.tsx:157-167 | a successful accept keeps the invariant, every id and every party, and every ledger exactly |
| Negotiations.CompleteEvolves | src/context/NegotiationContext.tsx:189-199 | a successful completion keeps the invariant, every id and every party, and every ledger exactly |
| Negotiations.ApplyEvolves | src/context/NegotiationContext.tsx:66-206 | every successful call keeps the invariant and only extends the list and its ledgers |
| Negotiations.RunKeepsInvariant | src/context/NegotiationContext.tsx:66-206 | after any sequence of calls from a reachable list, the invariant holds. Ledgers are append-only and buyer, seller and product ids never change |
| Negotiations.NegotiationStore.constructor | src/context/NegotiationContext.tsx:52-53 | the provider starts with an empty list, loading |
| Negotiations.NegotiationStore.FinishLoading | src/context/NegotiationContext.tsx:56-64 | the load effect installs the seeded list and clears the loading flag |
| Negotiations.NegotiationStore.StartNegotiation | src/context/NegotiationContext.tsx:66-102 | the list becomes `Start` of the old list, or is unchanged on error; the returned id finds the new negotiation |
| Negotiations.NegotiationStore.SendMessage | src/context/NegotiationContext.tsx:104-142 | the list becomes `Send` of the old list, or is unchanged with the same error; the invariant is kept |
| Negotiations.NegotiationStore.AcceptOffer | src/context/NegotiationContext.tsx:144-174 | the list becomes `Accept` of the old list, or is unchanged with the same error |
| Negotiations.NegotiationStore.CompletePurchase | src/context/NegotiationContext.tsx:176-206 | the list becomes `Complete` of the old list, or is unchanged with the same error |
| Products.ApplyPatchOverrides | src/context/ProductContext.tsx:113-115 | merge-update overrides exactly the supplied fields: each supplied field takes the patch's value, each unsupplied field keeps the product's, and `updatedAt` is always the update's time |
| Products.ApplyPatchLaws | src/context/ProductContext.tsx:107-117 | an empty patch changes only `updatedAt`; the same patch twice equals it once; two patches in a row equal their merge |
| Products.UserProductsCounts | src/context/ProductContext.tsx:166-174 | a seller's listing holds each of their products exactly as many times as the product list does, and nothing else |
| Products.UserProducts | src/context/ProductContext.tsx:166-174 | a seller gets exactly the products with their seller id; any other role or no user gets nothing |
| Products.ProductById | src/context/ProductContext.tsx:176-178 | the first product with that id, or none exactly when no product has it |
| Products.PendingVerifications | src/context/ProductContext.tsx:180-183 | a technician gets exactly the pending products; anybody else gets nothing |
| Products.Add | src/context/ProductContext.tsx:83-105 | fails exactly when nobody is logged in; otherwise appends one pending product with id `p{len+1}`, the user's name as seller name and the user's phone (or `''`) as seller phone. Every field of the draft (name, details, prices, technician findings, seller id, technician phone, address, images) is copied unchanged, and earlier products are unchanged |
| Products.Update | src/context/ProductContext.tsx:107-124 | every product with the id becomes the patch merged into it, every other product is unchanged, and an unknown id changes nothing |
| Products.Verify | src/context/ProductContext.tsx:126-164 | fails exactly for no user or a non-technician. Otherwise each product with the id becomes verified with the technician's description, price, phone and images. Every other field of it (id, name, details, seller, seller price, seller name and phone, address, sample image, creation time) is kept, and every other product is unchanged |
| Products.AddedProductIsQueued | src/context/ProductContext.tsx:99 | a submitted product joins the end of every technician's verification queue |
| Products.AddedProductIsListed | src/context/ProductContext.tsx:99 | a submitted product joins the end of its seller's listing and leaves every other seller's listing unchanged |
| Products.AddedProductIsFound | src/context/ProductContext.tsx:91 | when no product holds `p{len+1}`, that id finds the new product |
| Products.VerifyRemovesFromQueue | src/context/ProductContext.tsx:140-157 | after a verification the technician queue is the old queue without the verified id, in the same order |
| Products.ProductStore.constructor | src/context/ProductContext.tsx:69-70 | the provider starts with an empty list, loading |
| Products.ProductStore.FinishLoading | src/context/ProductContext.tsx:73-81 | the load effect installs the seeded list and clears the loading flag |
| Products.ProductStore.AddProduct | src/context/ProductContext.tsx:83-105 | the list becomes `Add` of the old list, or is unchanged when nobody is logged in |
| Products.ProductStore.UpdateProduct | src/context/ProductContext.tsx:107-124 | the list becomes `Update` of the old list |
| Products.ProductStore.VerifyProduct | src/context/ProductContext.tsx:126-164 | the list becomes `Verify` of the old list, or is unchanged for a non-technician |
| Auth.RoleLetterInjective | src/context/AuthContext.tsx:85 | the three roles begin with different letters |
| Auth.FindUser | src/context/AuthContext.tsx:48 | the first row matching email, password and role together, or none exactly when no row matches all three |
| Auth.MockUsersSatisfyInvariant | src/context/AuthContext.tsx:13-17 | the seeded table has unique emails and ids `s1`, `b1`, `t1` |
| Auth.IdsUnique | src/context/AuthContext.tsx:85 | in a table of the reachable shape, equal user ids mean the same row |
| Auth.Authenticate | src/context/AuthContext.tsx:43-70 | login succeeds exactly when some row matches all three credentials. The state then holds that row's user (without the password), authenticated and not loading; otherwise the error is "invalid credentials" |
| Auth.AddUser | src/context/AuthContext.tsx:72-110 | fails exactly when the email is taken; otherwise appends one row with id role letter + `len+1` and the given name, email, password, phone and role, leaving earlier rows unchanged |
| Auth.RegisterKeepsInvariant | src/context/AuthContext.tsx:79-94 | registration keeps emails unique and ids of the seeded shape |
| Auth.LoginAfterRegister | src/context/AuthContext.tsx:72-103 | right after registering, logging in with the same email, password and role succeeds as the new user |
| Auth.RegisterKeepsLogins | src/context/AuthContext.tsx:94 | every login that succeeded before a registration succeeds after it, as the same user |
| Auth.AuthStore.constructor | src/context/AuthContext.tsx:13-26 | the seeded table, no user, not authenticated, loading |
| Auth.AuthStore.RestoreSession | src/context/AuthContext.tsx:28-41 | with a saved user the state becomes that user, authenticated; otherwise only loading is cleared |
| Auth.AuthStore.Login | src/context/AuthContext.tsx:43-70 | the state becomes `Authenticate`'s, or is unchanged on error |
| Auth.AuthStore.Register | src/context/AuthContext.tsx:72-110 | the table becomes `AddUser`'s and the new user is authenticated; on error nothing changes; the table invariant is kept |
| Auth.AuthStore.Logout | src/context/AuthContext.tsx:112-120 | no user, not authenticated, not loading |
| Chat.TrimStart | src/components/negotiation/NegotiationChat.tsx:44 | a suffix of the input, everything dropped is white space, and it does not start with white space |
| Chat.TrimEnd | src/components/negotiation/NegotiationChat.tsx:44 | a prefix of the input, everything dropped is white space, and it does not end with white space |
| Chat.Trim | src/components/negotiation/NegotiationChat.tsx:44 | `trim()` neither starts nor ends with white space and is empty exactly when the message is all white space |
| Chat.TrimIsSlice | src/components/negotiation/NegotiationChat.tsx:44 | `trim()` is a contiguous slice of the message, and everything before and after it is white space |
| Chat.ComposeContent | src/components/negotiation/NegotiationChat.tsx:51 | the typed message, untrimmed, when non-empty; otherwise the offer text for a staged non-zero offer; empty exactly when nothing is typed and no non-zero offer is staged |
| Chat.OfferToSend | src/components/negotiation/NegotiationChat.tsx:52 | the staged offer is passed when present and non-zero, and as absent otherwise |
| Chat.SubmittedContentNotEmpty | src/components/negotiation/NegotiationChat.tsx:44-52 | past the early return, the content is empty only for a staged 0 with nothing typed; for the offers the panel stages, the content is non-empty and the offer is passed unchanged |
| Chat.PanelSendUpdatesLedger | src/components/negotiation/NegotiationChat.tsx:49-53 | a send from the panel adds one message with non-empty content and the staged offer, from the user, and moves the current offer to the staged offer when there is one |
| Chat.VisibleControls | src/components/negotiation/NegotiationChat.tsx:157-311 | the composer shows only in active status; make/counter offer only for a buyer/seller in active status with the panel closed; accept only for a seller in active status; complete purchase only for a buyer in accepted status; contact information only in completed status. Each button asks for the next step of active, then accepted, then completed |
| Chat.PanelAcceptFollowsLifecycle | src/components/negotiation/NegotiationChat.tsx:284-293 | accepting through the button the panel shows moves the negotiation from active to accepted |
| Chat.PanelCompleteFollowsLifecycle | src/components/negotiation/NegotiationChat.tsx:73-81 | completing through the guarded handler moves the negotiation from accepted to completed |
| Chat.StoreAloneSkipsAcceptance | src/context/NegotiationContext.tsx:176-206 | without the panel's guard, the buyer of the seeded active negotiation can complete it directly, skipping acceptance |
| Chat.ChatPanel.constructor | src/components/negotiation/NegotiationChat.tsx:22-25 | empty message, no staged offer, manual-offer panel closed |
| Chat.ChatPanel.TypeMessage | src/components/negotiation/NegotiationChat.tsx:243-245 | the message field holds the typed text |
| Chat.ChatPanel.OpenManualOffer | src/components/negotiation/NegotiationChat.tsx:260-282 | "Make Offer" and "Counter Offer" open the manual-offer panel |
| Chat.ChatPanel.CloseManualOffer | src/components/negotiation/NegotiationChat.tsx:229-231 | the close button closes the manual-offer panel |
| Chat.ChatPanel.CancelOffer | src/components/negotiation/NegotiationChat.tsx:202-208 | "Cancel" clears the staged offer |
| Chat.ChatPanel.HandleManualOfferSubmit | src/components/negotiation/NegotiationChat.tsx:83-89 | a parsed amount above zero is staged and closes the panel; anything else changes nothing |
| Chat.ChatPanel.HandleSendMessage | src/components/negotiation/NegotiationChat.tsx:41-63 | with a blank message and no staged offer nothing is called and nothing changes. Otherwise the store's list becomes `Send` of the composed content and offer. On success the message is cleared, the offer unstaged and the panel closed; on failure the panel is unchanged |
| Chat.ChatPanel.HandleAcceptOffer | src/components/negotiation/NegotiationChat.tsx:65-71 | calls the store with no check of its own; the list becomes `Accept`'s or is unchanged on error |
| Chat.ChatPanel.HandleCompletePurchase | src/components/negotiation/NegotiationChat.tsx:73-81 | calls the store only when the displayed negotiation is accepted; the list then becomes `Complete`'s or is unchanged on error |

## Left out

- The simulated one-second latency, `async`/`await` and the load effects' timers: every operation is one atomic step, and loading is the single step `FinishLoading`.
- React's state batching: `sendMessage`, `acceptOffer` and `completePurchase` validate against the rendered list but update through the `prev` callback; the model has one list, as if no update were pending.
- Toasts, `console.error`, routing, JSX rendering, message bubbles, `formatDate` and scrolling: they are presentation only.
- `localStorage` writes in `login`, `register` and `logout`: they are I/O. The saved session read at start-up is a parameter of `RestoreSession`, and a restored user need not be in the table.
- `Date.now()` message ids, `new Date().toISOString()` timestamps and the table's creation time: they are parameters (`msgId`, `now`, `createdAt`), not a clock.
- Separate clock readings within one operation: the source reads `new Date()` once per timestamp (the opening message's time and the negotiation's `createdAt` and `updatedAt` in `startNegotiation`, the message's time and the negotiation's `updatedAt` in `sendMessage`, a new product's `createdAt` and `updatedAt` in `addProduct`), while the model gives all timestamps of one operation the same `now`.
- Floating-point numbers: prices and offers are integers. `parseFloat` is not modelled: `HandleManualOfferSubmit` receives the parsed amount, with `None` for NaN, so fractional offers are outside the model.
- The `manualOffer` text field: only the number it parses to reaches the model.
- The send button's `disabled` condition (nothing typed and no staged offer): the handler's own early return on a blank message with no staged offer, which `Chat.ChatPanel.HandleSendMessage` models, refuses every send the button would, so no store call is lost.
- The `isSubmitting` flag: it only disables the input while a call is in flight, which atomic steps never show.
- The `useNegotiations`/`useAuth`/`useProducts` errors outside a provider: they are React wiring.
- The seller-side "Buyer Contact" field shows the viewer's own phone: the model records only that the block is shown (`buyerContact`), not its text.
- The `MOCK_USERS` array is module-level in the source and shared by every provider; the model keeps it as a field of one `AuthStore`.
- A `Partial<Product>` that sets a required field to `undefined`: a patch supplies each required field as a value or not at all.
- Chat.IsSpace: the white space set is that of `trim` in ECMAScript 2023 (Unicode space separators, line terminators and BOM); a change of that set in later Unicode versions is not tracked.
- Negotiations.UserNegotiations: its contract states which negotiations are listed, not their order; multiplicities are stated by `Negotiations.UserNegotiationsCounts` and order for appends by `Negotiations.UserNegotiationsAppend`.
- Products.UserProducts: its contract states which products are listed, not their order; multiplicities are stated by `Products.UserProductsCounts` and order for appends by `Products.AddedProductIsListed`.
- Products.PendingVerifications: its contract states which products are listed, not their order; order is stated by `Products.AddedProductIsQueued` and `Products.VerifyRemovesFromQueue`.
