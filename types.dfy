/** The records of the marketplace (src/types/index.ts). String-literal
    unions become closed datatypes, so a role or a status is always exactly
    one of the listed values; optional fields become `Option`. Prices and
    offers are modelled as integers. */
module Types {
  import opened Wrappers

  datatype UserRole = Seller | Buyer | Technician

  /** A user as the rest of the application sees it: no password. */
  datatype User = User(
    id: string,
    name: string,
    email: string,
    phoneNumber: Option<string>,
    role: UserRole,
    createdAt: string)

  datatype AuthState = AuthState(user: Option<User>, isAuthenticated: bool, loading: bool)

  datatype ProductStatus = Pending | Verified | Sold

  datatype Images = Images(sample: Option<string>, technician: Option<seq<string>>)

  datatype Product = Product(
    id: string,
    name: string,
    details: string,
    sellerPrice: int,
    technicianPrice: Option<int>,
    technicianDescription: Option<string>,
    sellerId: string,
    sellerName: string,
    sellerPhone: Option<string>,
    technicianPhone: Option<string>,
    address: Option<string>,
    status: ProductStatus,
    images: Images,
    createdAt: string,
    updatedAt: string)

  datatype NegotiationStatus = Active | Accepted | Rejected | Completed

  /** One entry of a negotiation's ledger; the offer is optional. */
  datatype Message = Message(
    id: string,
    senderId: string,
    senderRole: UserRole,
    content: string,
    offerAmount: Option<int>,
    timestamp: string)

  /** A negotiation between one buyer and one seller over one product:
      an ordered ledger of messages and a single scalar current offer. */
  datatype Negotiation = Negotiation(
    id: string,
    productId: string,
    buyerId: string,
    sellerId: string,
    messages: seq<Message>,
    currentOffer: int,
    status: NegotiationStatus,
    createdAt: string,
    updatedAt: string)
}
