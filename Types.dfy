/** The records of the application (types/index.ts). Timestamps are
    milliseconds since the epoch, the value `new Date(ts).getTime()` yields;
    the ISO strings of the fixtures order the same way. A profile that
    extends a user carries that user as its `user` field, and the role it is
    declared with is pinned by a subset type. */
module Types {
  import opened Wrappers

  /** `'investor' | 'entrepreneur'`. */
  datatype Role = InvestorRole | EntrepreneurRole

  /** `'seed' | 'series-a' | 'series-b' | 'series-c' | 'ipo'`. */
  datatype Stage = Seed | SeriesA | SeriesB | SeriesC | Ipo

  /** `'pending' | 'accepted' | 'rejected'`. */
  datatype RequestStatus = Pending | Accepted | Rejected

  datatype User = User(
    id: string,
    name: string,
    email: string,
    role: Role,
    avatar: Option<string>,
    bio: Option<string>,
    location: Option<string>,
    joinedDate: string)

  datatype InvestmentRange = InvestmentRange(min: int, max: int)

  datatype InvestorRecord = InvestorRecord(
    user: User,
    investmentInterests: seq<string>,
    portfolio: seq<string>,
    investmentRange: InvestmentRange,
    totalInvestments: int)

  /** `Investor extends User` with `role: 'investor'`. */
  type Investor = i: InvestorRecord | i.user.role == InvestorRole
    witness InvestorRecord(User("", "", "", InvestorRole, None, None, None, ""),
                           [], [], InvestmentRange(0, 0), 0)

  datatype EntrepreneurRecord = EntrepreneurRecord(
    user: User,
    startupName: string,
    startupDescription: string,
    industry: string,
    fundingNeed: int,
    fundingStage: Stage,
    pitchDeck: Option<string>,
    website: Option<string>)

  /** `Entrepreneur extends User` with `role: 'entrepreneur'`. */
  type Entrepreneur = e: EntrepreneurRecord | e.user.role == EntrepreneurRole
    witness EntrepreneurRecord(User("", "", "", EntrepreneurRole, None, None, None, ""),
                               "", "", "", 0, Seed, None, None)

  datatype CollaborationRequest = CollaborationRequest(
    id: string,
    investorId: string,
    entrepreneurId: string,
    status: RequestStatus,
    message: string,
    createdAt: int,
    updatedAt: int)

  datatype ChatMessage = ChatMessage(
    id: string,
    senderId: string,
    receiverId: string,
    message: string,
    timestamp: int,
    read: bool)

  /** The string the source stores for a funding stage. */
  function StageName(s: Stage): string {
    match s
    case Seed => "seed"
    case SeriesA => "series-a"
    case SeriesB => "series-b"
    case SeriesC => "series-c"
    case Ipo => "ipo"
  }

  /** Distinct stages are stored as distinct strings, so comparing the
      strings compares the stages. */
  lemma StageNameInjective(a: Stage, b: Stage)
    ensures StageName(a) == StageName(b) <==> a == b
  {
  }
}
