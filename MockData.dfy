/** The fixtures every page starts from (data/mockData.ts), and the
    referential facts they satisfy. The role-specific lists are built as the
    source builds them: a copy of a user with its role overwritten. */
module MockData {
  import opened Wrappers
  import opened Types

  const SarahJohnson: User :=
    User("1", "Sarah Johnson", "sarah.johnson@email.com", InvestorRole,
         Some("https://images.unsplash.com/photo-1494790108755-2616b34e4022?w=100"),
         Some("Experienced investor focused on early-stage tech startups with 10+ years in venture capital."),
         Some("San Francisco, CA"), "2023-01-15")

  const MichaelChen: User :=
    User("2", "Michael Chen", "michael.chen@email.com", EntrepreneurRole,
         Some("https://images.unsplash.com/photo-1507003211169-0a1dd7228f2d?w=100"),
         Some("Serial entrepreneur with a passion for sustainable technology and green energy solutions."),
         Some("Austin, TX"), "2023-02-20")

  const EmilyRodriguez: User :=
    User("3", "Emily Rodriguez", "emily.rodriguez@email.com", InvestorRole,
         Some("https://images.unsplash.com/photo-1438761681033-6461ffad8d80?w=100"),
         Some("Angel investor and former tech executive specializing in fintech and AI startups."),
         Some("New York, NY"), "2023-01-08")

  const DavidPark: User :=
    User("4", "David Park", "david.park@email.com", EntrepreneurRole,
         Some("https://images.unsplash.com/photo-1472099645785-5658abf4ff4e?w=100"),
         Some("Founder of multiple successful startups, currently working on revolutionizing healthcare delivery."),
         Some("Seattle, WA"), "2023-03-10")

  const LisaThompson: User :=
    User("5", "Lisa Thompson", "lisa.thompson@email.com", EntrepreneurRole,
         Some("https://images.unsplash.com/photo-1544005313-94ddf0286df2?w=100"),
         Some("EdTech entrepreneur focused on making quality education accessible to underserved communities."),
         Some("Chicago, IL"), "2023-02-28")

  /** The five seeded users, in the order `mockUsers` lists them. */
  const MockUsers: seq<User> := [SarahJohnson, MichaelChen, EmilyRodriguez, DavidPark, LisaThompson]

  const MockInvestors: seq<Investor> := [
    InvestorRecord(SarahJohnson.(role := InvestorRole),
                   ["FinTech", "AI/ML", "SaaS", "Healthcare"],
                   ["TechCorp", "DataFlow", "MedTech Solutions", "AI Innovations"],
                   InvestmentRange(50000, 2000000), 15),
    InvestorRecord(EmilyRodriguez.(role := InvestorRole),
                   ["FinTech", "Blockchain", "Cybersecurity"],
                   ["CryptoSecure", "PaymentFlow", "SecureNet"],
                   InvestmentRange(100000, 5000000), 22)
  ]

  const GreenTechDescription: string :=
    "Developing renewable energy management systems for residential and commercial use. Our AI-powered platform optimizes energy consumption and reduces costs by up to 40%."
  const HealthConnectDescription: string :=
    "Telemedicine platform connecting patients with healthcare providers through AI-driven triage and personalized care recommendations."
  const EduBridgeDescription: string :=
    "Online learning platform providing personalized education experiences using adaptive learning algorithms and gamification."

  const GreenTechSolutions: Entrepreneur :=
    EntrepreneurRecord(MichaelChen.(role := EntrepreneurRole),
      "GreenTech Solutions", GreenTechDescription,
      "CleanTech", 1500000, SeriesA, None, Some("https://greentech-solutions.com"))

  const HealthConnect: Entrepreneur :=
    EntrepreneurRecord(DavidPark.(role := EntrepreneurRole),
      "HealthConnect", HealthConnectDescription,
      "Healthcare", 2500000, SeriesB, None, Some("https://healthconnect.io"))

  const EduBridge: Entrepreneur :=
    EntrepreneurRecord(LisaThompson.(role := EntrepreneurRole),
      "EduBridge", EduBridgeDescription,
      "EdTech", 800000, Seed, None, Some("https://edubridge.org"))

  const MockEntrepreneurs: seq<Entrepreneur> := [GreenTechSolutions, HealthConnect, EduBridge]

  const Request1: CollaborationRequest :=
    CollaborationRequest("req-1", "1", "2", Pending,
      "Hi Michael, I'm interested in learning more about GreenTech Solutions. Your approach to renewable energy management aligns well with my investment thesis. Would love to discuss further.",
      1705312800000, 1705312800000)

  const Request2: CollaborationRequest :=
    CollaborationRequest("req-2", "3", "4", Accepted,
      "David, your HealthConnect platform shows great potential. I'd like to schedule a meeting to discuss investment opportunities.",
      1704897000000, 1705050900000)

  const Request3: CollaborationRequest :=
    CollaborationRequest("req-3", "1", "5", Rejected,
      "Lisa, while EduBridge is a promising concept, it falls outside my current investment focus. Best of luck with your venture!",
      1704732300000, 1704799200000)

  const MockCollaborationRequests: seq<CollaborationRequest> := [Request1, Request2, Request3]

  const Message1: ChatMessage :=
    ChatMessage("msg-1", "1", "2",
      "Hi Michael! I've reviewed your pitch deck and I'm impressed with your renewable energy solution.",
      1705397400000, true)

  const Message2: ChatMessage :=
    ChatMessage("msg-2", "2", "1",
      "Thank you, Sarah! I'd love to discuss the technical details and our go-to-market strategy.",
      1705398300000, true)

  const Message3: ChatMessage :=
    ChatMessage("msg-3", "1", "2",
      "Perfect! Let's schedule a call for this Thursday at 2 PM. I have some questions about your scalability plans.",
      1705400100000, false)

  const MockChatMessages: seq<ChatMessage> := [Message1, Message2, Message3]

  /** Ids of a user list are pairwise distinct. */
  ghost predicate UniqueIds(users: seq<User>) {
    forall i, j :: 0 <= i < j < |users| ==> users[i].id != users[j].id
  }

  /** Some user in `users` has id `id` and role `role`. */
  ghost predicate NamesUserWithRole(users: seq<User>, id: string, role: Role) {
    exists k :: 0 <= k < |users| && users[k].id == id && users[k].role == role
  }

  lemma UserIdsDistinct()
    ensures UniqueIds(MockUsers)
    ensures |MockUsers| == 5
  {
  }

  /** The investor and entrepreneur lists are the users they were spread from:
      overwriting the role changes nothing, because each already has it. */
  lemma ProfilesCopyUsers()
    ensures |MockInvestors| == 2 && |MockEntrepreneurs| == 3
    ensures MockInvestors[0].user == MockUsers[0] && MockInvestors[1].user == MockUsers[2]
    ensures MockEntrepreneurs[0].user == MockUsers[1]
    ensures MockEntrepreneurs[1].user == MockUsers[3]
    ensures MockEntrepreneurs[2].user == MockUsers[4]
  {
  }

  /** Every request links an investor user to an entrepreneur user, and was
      not updated before it was created. */
  lemma RequestsAreWellFormed()
    ensures forall r :: r in MockCollaborationRequests ==>
      NamesUserWithRole(MockUsers, r.investorId, InvestorRole)
      && NamesUserWithRole(MockUsers, r.entrepreneurId, EntrepreneurRole)
      && r.createdAt <= r.updatedAt
  {
    assert NamesUserWithRole(MockUsers, "1", InvestorRole) by { assert MockUsers[0].id == "1"; }
    assert NamesUserWithRole(MockUsers, "3", InvestorRole) by { assert MockUsers[2].id == "3"; }
    assert NamesUserWithRole(MockUsers, "2", EntrepreneurRole) by { assert MockUsers[1].id == "2"; }
    assert NamesUserWithRole(MockUsers, "4", EntrepreneurRole) by { assert MockUsers[3].id == "4"; }
    assert NamesUserWithRole(MockUsers, "5", EntrepreneurRole) by { assert MockUsers[4].id == "5"; }
  }

  lemma InvestmentRangesAreOrdered()
    ensures forall i :: i in MockInvestors ==> i.investmentRange.min <= i.investmentRange.max
  {
  }

  /** Every fixture message is between users '1' and '2', never to oneself. */
  lemma MessagesAreBetweenFirstTwoUsers()
    ensures forall m :: m in MockChatMessages ==>
      {m.senderId, m.receiverId} == {"1", "2"} && m.senderId != m.receiverId
  {
  }
}
