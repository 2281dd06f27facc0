/** The two profile pages, pages/EntrepreneurProfile.tsx and
    pages/InvestorProfile.tsx: which record a profile id resolves to (a
    role-specific record first, otherwise a bare user of that role with
    default profile fields), who is offered the message button, and the
    texts and colours derived from the record. */
module Profiles {
  import opened Wrappers
  import opened Types
  import Seqs
  import Access
  import Discovery
  import MockData

  /** The profile fields an entrepreneur without a startup record is shown
      with. There is no pitch deck, and the website is the empty string. */
  function EntrepreneurDefaults(u: User): (e: Entrepreneur)
    requires u.role == EntrepreneurRole
    ensures e.user == u && e.pitchDeck.None? && e.website == Some("")
    ensures e.fundingStage == Seed && e.fundingNeed == 500000
  {
    EntrepreneurRecord(u, "Startup Company", "Building innovative solutions", "Technology",
                       500000, Seed, None, Some(""))
  }

  /** The profile fields an investor without an investor record is shown
      with. */
  function InvestorDefaults(u: User): (i: Investor)
    requires u.role == InvestorRole
    ensures i.user == u && i.totalInvestments == 5
    ensures i.investmentRange.min <= i.investmentRange.max
  {
    InvestorRecord(u, ["Technology", "Healthcare"], ["Various Startups"],
                   InvestmentRange(50000, 1000000), 5)
  }

  /** The entrepreneur profile for `id`: the first entrepreneur record with
      that id, else the first user with that id and the entrepreneur role
      dressed in the defaults, else nothing ("Entrepreneur not found"). */
  function ResolveEntrepreneur(ents: seq<Entrepreneur>, users: seq<User>, id: string)
    : (r: Option<Entrepreneur>)
    ensures r.Some? ==> r.value.user.id == id
    ensures (exists j :: 0 <= j < |ents| && ents[j].user.id == id) ==> r.Some? && r.value in ents
    ensures (forall j :: 0 <= j < |ents| ==> ents[j].user.id != id) ==>
      (r.None? <==> forall k :: 0 <= k < |users| ==>
                       !(users[k].id == id && users[k].role == EntrepreneurRole))
      && (r.Some? ==> r.value.user in users && r.value == EntrepreneurDefaults(r.value.user))
    ensures r.Some? && (exists j :: 0 <= j < |ents| && ents[j].user.id == id) ==>
      exists k :: 0 <= k < |ents| && ents[k] == r.value && ents[k].user.id == id
        && forall j :: 0 <= j < k ==> ents[j].user.id != id
    ensures r.Some? && (forall j :: 0 <= j < |ents| ==> ents[j].user.id != id) ==>
      exists k :: 0 <= k < |users| && users[k] == r.value.user
        && users[k].id == id && users[k].role == EntrepreneurRole
        && forall j :: 0 <= j < k ==> !(users[j].id == id && users[j].role == EntrepreneurRole)
  {
    match Seqs.Find(ents, (e: Entrepreneur) => e.user.id == id)
    case Some(e) => Some(e)
    case None =>
      match Seqs.Find(users, (u: User) => u.id == id && u.role == EntrepreneurRole)
      case Some(u) => Some(EntrepreneurDefaults(u))
      case None => None
  }

  /** The investor profile for `id`, resolved in the same way. */
  function ResolveInvestor(invs: seq<Investor>, users: seq<User>, id: string)
    : (r: Option<Investor>)
    ensures r.Some? ==> r.value.user.id == id
    ensures (exists j :: 0 <= j < |invs| && invs[j].user.id == id) ==> r.Some? && r.value in invs
    ensures (forall j :: 0 <= j < |invs| ==> invs[j].user.id != id) ==>
      (r.None? <==> forall k :: 0 <= k < |users| ==>
                       !(users[k].id == id && users[k].role == InvestorRole))
      && (r.Some? ==> r.value.user in users && r.value == InvestorDefaults(r.value.user))
    ensures r.Some? && (exists j :: 0 <= j < |invs| && invs[j].user.id == id) ==>
      exists k :: 0 <= k < |invs| && invs[k] == r.value && invs[k].user.id == id
        && forall j :: 0 <= j < k ==> invs[j].user.id != id
    ensures r.Some? && (forall j :: 0 <= j < |invs| ==> invs[j].user.id != id) ==>
      exists k :: 0 <= k < |users| && users[k] == r.value.user
        && users[k].id == id && users[k].role == InvestorRole
        && forall j :: 0 <= j < k ==> !(users[j].id == id && users[j].role == InvestorRole)
  {
    match Seqs.Find(invs, (i: Investor) => i.user.id == id)
    case Some(i) => Some(i)
    case None =>
      match Seqs.Find(users, (u: User) => u.id == id && u.role == InvestorRole)
      case Some(u) => Some(InvestorDefaults(u))
      case None => None
  }

  /** The fixtures: '2' is Michael Chen's startup record, and '1' is an
      investor and so has no entrepreneur profile. */
  lemma FixtureEntrepreneurProfiles()
    ensures ResolveEntrepreneur(MockData.MockEntrepreneurs, MockData.MockUsers, "2")
         == Some(MockData.MockEntrepreneurs[0])
    ensures ResolveEntrepreneur(MockData.MockEntrepreneurs, MockData.MockUsers, "1").None?
  {
    FixtureEntrepreneurFound();
    FixtureEntrepreneurMissing();
  }

  lemma FixtureEntrepreneurFound()
    ensures ResolveEntrepreneur(MockData.MockEntrepreneurs, MockData.MockUsers, "2")
         == Some(MockData.MockEntrepreneurs[0])
  {
    MockData.ProfilesCopyUsers();
    EntrepreneurFoundAt(MockData.MockEntrepreneurs, MockData.MockUsers, "2", 0);
  }

  lemma FixtureEntrepreneurMissing()
    ensures ResolveEntrepreneur(MockData.MockEntrepreneurs, MockData.MockUsers, "1").None?
  {
    var ents, users := MockData.MockEntrepreneurs, MockData.MockUsers;
    MockData.ProfilesCopyUsers();
    MockData.UserIdsDistinct();
    assert forall j :: 0 <= j < |ents| ==> ents[j].user.id != "1";
    assert forall k :: 0 <= k < |users| ==> !(users[k].id == "1" && users[k].role == EntrepreneurRole);
  }

  /** '3' is Emily Rodriguez's investor record, and '2' is an entrepreneur
      and so has no investor profile. */
  lemma FixtureInvestorProfiles()
    ensures ResolveInvestor(MockData.MockInvestors, MockData.MockUsers, "3")
         == Some(MockData.MockInvestors[1])
    ensures ResolveInvestor(MockData.MockInvestors, MockData.MockUsers, "2").None?
  {
    FixtureInvestorFound();
    FixtureInvestorMissing();
  }

  lemma FixtureInvestorFound()
    ensures ResolveInvestor(MockData.MockInvestors, MockData.MockUsers, "3")
         == Some(MockData.MockInvestors[1])
  {
    var invs := MockData.MockInvestors;
    MockData.ProfilesCopyUsers();
    assert invs[0].user.id != "3" && invs[1].user.id == "3";
    InvestorFoundAt(invs, MockData.MockUsers, "3", 1);
  }

  lemma FixtureInvestorMissing()
    ensures ResolveInvestor(MockData.MockInvestors, MockData.MockUsers, "2").None?
  {
    var invs, users := MockData.MockInvestors, MockData.MockUsers;
    MockData.ProfilesCopyUsers();
    MockData.UserIdsDistinct();
    assert forall j :: 0 <= j < |invs| ==> invs[j].user.id != "2";
    assert forall k :: 0 <= k < |users| ==> !(users[k].id == "2" && users[k].role == InvestorRole);
  }

  /** The first entrepreneur record with the id is the profile shown. */
  lemma EntrepreneurFoundAt(ents: seq<Entrepreneur>, users: seq<User>, id: string, k: nat)
    requires k < |ents| && ents[k].user.id == id
    requires forall j :: 0 <= j < k ==> ents[j].user.id != id
    ensures ResolveEntrepreneur(ents, users, id) == Some(ents[k])
  {
  }

  /** The first investor record with the id is the profile shown. */
  lemma InvestorFoundAt(invs: seq<Investor>, users: seq<User>, id: string, k: nat)
    requires k < |invs| && invs[k].user.id == id
    requires forall j :: 0 <= j < k ==> invs[j].user.id != id
    ensures ResolveInvestor(invs, users, id) == Some(invs[k])
  {
  }

  /** A newly registered entrepreneur, who has no startup record, gets a
      profile built from the defaults. */
  lemma RegisteredEntrepreneurGetsDefaults(ents: seq<Entrepreneur>, users: seq<User>, u: User)
    requires u.role == EntrepreneurRole
    requires forall j :: 0 <= j < |ents| ==> ents[j].user.id != u.id
    requires forall k :: 0 <= k < |users| ==> users[k].id != u.id
    ensures ResolveEntrepreneur(ents, users + [u], u.id) == Some(EntrepreneurDefaults(u))
  {
    var p := (v: User) => v.id == u.id && v.role == EntrepreneurRole;
    Seqs.FindIndexAppendFresh(users, u, p);
  }

  /** `!isOwnProfile && currentUser?.role === 'investor'` on an entrepreneur
      profile: nobody signed in compares unequal to every id and has no
      role, so sees no button. */
  predicate CanMessageEntrepreneur(viewer: Option<User>, owner: Entrepreneur) {
    !(viewer.Some? && viewer.value.id == owner.user.id)
    && viewer.Some? && viewer.value.role == InvestorRole
  }

  /** `!isOwnProfile && currentUser?.role === 'entrepreneur'` on an investor
      profile. */
  predicate CanMessageInvestor(viewer: Option<User>, owner: Investor) {
    !(viewer.Some? && viewer.value.id == owner.user.id)
    && viewer.Some? && viewer.value.role == EntrepreneurRole
  }

  /** The message button is offered only to a signed-in user of the other
      role looking at someone else's profile, and the chat route it links
      to lets that user in. */
  lemma MessageButtonLeadsToChat(viewer: Option<User>, e: Entrepreneur, i: Investor)
    ensures CanMessageEntrepreneur(viewer, e) <==>
      viewer.Some? && viewer.value.role == InvestorRole && viewer.value.id != e.user.id
    ensures CanMessageInvestor(viewer, i) <==>
      viewer.Some? && viewer.value.role == EntrepreneurRole && viewer.value.id != i.user.id
    ensures !(CanMessageEntrepreneur(viewer, e) && CanMessageInvestor(viewer, i))
    ensures CanMessageEntrepreneur(viewer, e) || CanMessageInvestor(viewer, i) ==>
      Access.Visit(Access.ChatRoute, false, viewer) == Access.Allow
  {
  }

  /** `entrepreneur.bio || placeholder`: an absent or empty bio shows the
      placeholder. */
  function BioText(bio: Option<string>, placeholder: string): (r: string)
    ensures bio.Some? && bio.value != "" ==> r == bio.value
    ensures bio.None? || bio.value == "" ==> r == placeholder
  {
    if bio.Some? && bio.value != "" then bio.value else placeholder
  }

  const EntrepreneurBioPlaceholder: string := "This entrepreneur hasn't added a bio yet."
  const InvestorBioPlaceholder: string := "This investor hasn't added a bio yet."

  /** A profile never shows an empty "About" text. */
  lemma BioNeverEmpty(bio: Option<string>)
    ensures BioText(bio, EntrepreneurBioPlaceholder) != ""
    ensures BioText(bio, InvestorBioPlaceholder) != ""
  {
    assert |EntrepreneurBioPlaceholder| > 0 && |InvestorBioPlaceholder| > 0;
  }

  /** `entrepreneurData.website && ...`: the link is shown for a non-empty
      website only. */
  predicate ShowsWebsite(e: Entrepreneur) {
    e.website.Some? && e.website.value != ""
  }

  /** `entrepreneurData.pitchDeck ? ... : 'No pitch deck uploaded yet'`. */
  predicate ShowsPitchDeck(e: Entrepreneur) {
    e.pitchDeck.Some? && e.pitchDeck.value != ""
  }

  /** A profile built from the defaults shows neither a website link nor a
      pitch deck. */
  lemma DefaultsShowNoLinks(u: User)
    requires u.role == EntrepreneurRole
    ensures !ShowsWebsite(EntrepreneurDefaults(u)) && !ShowsPitchDeck(EntrepreneurDefaults(u))
  {
  }

  /** `getFundingStageColor` of the entrepreneur profile. */
  function FundingStageColor(s: Stage): string {
    match s
    case Seed => "bg-green-100 text-green-800"
    case SeriesA => "bg-blue-100 text-blue-800"
    case SeriesB => "bg-purple-100 text-purple-800"
    case SeriesC => "bg-orange-100 text-orange-800"
    case Ipo => "bg-gray-100 text-gray-800"
  }

  /** The profile and the discovery card colour a stage alike, except
      series-c, which only the profile singles out. */
  lemma StageColorsAgreeExceptSeriesC(s: Stage)
    ensures FundingStageColor(s) == Discovery.CardStageColor(s) <==> s != SeriesC
  {
    if s == SeriesC {
      assert FundingStageColor(s)[3] == 'o' && Discovery.CardStageColor(s)[3] == 'g';
    }
  }

  /** The profile writes the stage as the discovery card does. */
  lemma ProfileStageLabel(e: Entrepreneur)
    ensures |Discovery.StageLabel(e.fundingStage)| == |StageName(e.fundingStage)|
    ensures e == EntrepreneurDefaults(e.user) ==> Discovery.StageLabel(e.fundingStage) == "Seed"
  {
    Discovery.StageLabels(e.fundingStage);
  }
}
