/** The discovery page of pages/InvestorDashboard.tsx: a search over the
    entrepreneur list combined with two facets, the facet option lists, and
    the way each card shortens its description and labels its stage. */
module Discovery {
  import opened Types
  import opened Text
  import Seqs
  import MockData

  /** The lower-cased term occurs in the lower-cased name, startup name or
      description. The term is not trimmed. */
  predicate MatchesSearch(e: Entrepreneur, term: string) {
    var t := ToLower(term);
    Includes(ToLower(e.user.name), t)
    || Includes(ToLower(e.startupName), t)
    || Includes(ToLower(e.startupDescription), t)
  }

  /** An empty facet passes everything; otherwise the value must be equal,
      case included. */
  predicate MatchesFacets(e: Entrepreneur, industry: string, stage: string) {
    (industry == "" || e.industry == industry)
    && (stage == "" || StageName(e.fundingStage) == stage)
  }

  predicate Matches(e: Entrepreneur, term: string, industry: string, stage: string) {
    MatchesSearch(e, term) && MatchesFacets(e, industry, stage)
  }

  /** `filteredEntrepreneurs`: the matching records, in list order. */
  function FilterEntrepreneurs(es: seq<Entrepreneur>, term: string, industry: string, stage: string)
    : (r: seq<Entrepreneur>)
    ensures Seqs.SubsequenceOf(r, es)
    ensures forall e :: e in r <==> e in es && Matches(e, term, industry, stage)
    ensures forall e :: multiset(r)[e] == if Matches(e, term, industry, stage) then multiset(es)[e] else 0
  {
    Seqs.Filter(es, (e: Entrepreneur) => Matches(e, term, industry, stage))
  }

  /** A record matches the search if any one of its three fields contains the
      term somewhere, ignoring ASCII case. */
  lemma MatchesSearchIff(e: Entrepreneur, term: string)
    ensures MatchesSearch(e, term) <==>
      (exists i :: OccursAt(ToLower(e.user.name), ToLower(term), i))
      || (exists i :: OccursAt(ToLower(e.startupName), ToLower(term), i))
      || (exists i :: OccursAt(ToLower(e.startupDescription), ToLower(term), i))
  {
    IncludesIff(ToLower(e.user.name), ToLower(term));
    IncludesIff(ToLower(e.startupName), ToLower(term));
    IncludesIff(ToLower(e.startupDescription), ToLower(term));
  }

  /** "Clear all filters" empties all three inputs, which shows every record
      again, in order. */
  lemma ClearedFiltersShowAll(es: seq<Entrepreneur>)
    ensures FilterEntrepreneurs(es, "", "", "") == es
  {
    forall j | 0 <= j < |es| ensures Matches(es[j], "", "", "") {
      IncludesEmpty(ToLower(es[j].user.name));
    }
    Seqs.FilterAll(es, (e: Entrepreneur) => Matches(e, "", "", ""));
  }

  /** The search is case-insensitive: changing the case of the term does not
      change the result. */
  lemma SearchIgnoresCase(es: seq<Entrepreneur>, term: string, industry: string, stage: string)
    ensures FilterEntrepreneurs(es, ToLower(term), industry, stage)
         == FilterEntrepreneurs(es, term, industry, stage)
  {
    ToLowerIdempotent(term);
    Seqs.FilterCongruent(es,
      (e: Entrepreneur) => Matches(e, ToLower(term), industry, stage),
      (e: Entrepreneur) => Matches(e, term, industry, stage));
  }

  /** Two search terms that differ only in the case of their letters select
      the same records. */
  lemma SearchCaseVariants(es: seq<Entrepreneur>, a: string, b: string, industry: string, stage: string)
    requires CaseVariants(a, b)
    ensures FilterEntrepreneurs(es, a, industry, stage) == FilterEntrepreneurs(es, b, industry, stage)
  {
    CaseVariantsLowerAlike(a, b);
    Seqs.FilterCongruent(es,
      (e: Entrepreneur) => Matches(e, a, industry, stage),
      (e: Entrepreneur) => Matches(e, b, industry, stage));
  }

  /** Narrowing a facet never brings in a record the wider query left out:
      the faceted result is a subsequence of the unfaceted one. */
  lemma {:induction false} FacetNarrows(es: seq<Entrepreneur>, term: string, industry: string, stage: string)
    ensures Seqs.SubsequenceOf(FilterEntrepreneurs(es, term, industry, stage),
                               FilterEntrepreneurs(es, term, "", ""))
  {
    if es != [] {
      FacetNarrows(es[1..], term, industry, stage);
      var r := FilterEntrepreneurs(es, term, industry, stage);
      var w := FilterEntrepreneurs(es, term, "", "");
      var r' := FilterEntrepreneurs(es[1..], term, industry, stage);
      var w' := FilterEntrepreneurs(es[1..], term, "", "");
      if Matches(es[0], term, industry, stage) {
        assert r == [es[0]] + r' && w == [es[0]] + w';
        assert r[1..] == r' && w[1..] == w';
      } else if Matches(es[0], term, "", "") {
        assert r == r' && w == [es[0]] + w';
        SubsequenceOfCons(r', w', es[0]);
      } else {
        assert r == r' && w == w';
      }
    }
  }

  lemma {:induction false} SubsequenceOfCons<T>(r: seq<T>, s: seq<T>, x: T)
    requires Seqs.SubsequenceOf(r, s)
    ensures Seqs.SubsequenceOf(r, [x] + s)
  {
    assert ([x] + s)[1..] == s;
  }

  /** `industries`: each industry of the list once, in order of first
      occurrence. */
  function Industries(es: seq<Entrepreneur>): (r: seq<string>)
    ensures Seqs.NoDuplicates(r)
    ensures forall x :: x in r <==> exists j :: 0 <= j < |es| && es[j].industry == x
  {
    var all := seq(|es|, j requires 0 <= j < |es| => es[j].industry);
    forall x ensures x in all <==> exists j :: 0 <= j < |es| && es[j].industry == x {
      if x in all {
        var j :| 0 <= j < |all| && all[j] == x;
        assert es[j].industry == x;
      }
      if exists j :: 0 <= j < |es| && es[j].industry == x {
        var j :| 0 <= j < |es| && es[j].industry == x;
        assert all[j] == x;
      }
    }
    Seqs.Distinct(all)
  }

  /** `fundingStages`: each stage of the list once, in order of first
      occurrence. */
  function FundingStages(es: seq<Entrepreneur>): (r: seq<Stage>)
    ensures Seqs.NoDuplicates(r)
    ensures forall x :: x in r <==> exists j :: 0 <= j < |es| && es[j].fundingStage == x
  {
    var all := seq(|es|, j requires 0 <= j < |es| => es[j].fundingStage);
    forall x ensures x in all <==> exists j :: 0 <= j < |es| && es[j].fundingStage == x {
      if x in all {
        var j :| 0 <= j < |all| && all[j] == x;
        assert es[j].fundingStage == x;
      }
      if exists j :: 0 <= j < |es| && es[j].fundingStage == x {
        var j :| 0 <= j < |es| && es[j].fundingStage == x;
        assert all[j] == x;
      }
    }
    Seqs.Distinct(all)
  }

  /** For the fixture list the industry options are its three industries,
      in the order the records list them. */
  lemma FixtureIndustries()
    ensures Industries(MockData.MockEntrepreneurs) == ["CleanTech", "Healthcare", "EdTech"]
  {
    var es := MockData.MockEntrepreneurs;
    var inds := seq(|es|, j requires 0 <= j < |es| => es[j].industry);
    assert inds == ["CleanTech", "Healthcare", "EdTech"];
    Seqs.DistinctOfNoDuplicates(inds);
  }

  /** The stage options are its three stages, in the same order. */
  lemma FixtureFundingStages()
    ensures FundingStages(MockData.MockEntrepreneurs) == [SeriesA, SeriesB, Seed]
  {
    var es := MockData.MockEntrepreneurs;
    var stages := seq(|es|, j requires 0 <= j < |es| => es[j].fundingStage);
    assert stages == [SeriesA, SeriesB, Seed];
    Seqs.DistinctOfNoDuplicates(stages);
  }

  /** An industry facet that no record has leaves nothing to show. */
  lemma FixtureUnknownIndustryIsEmpty()
    ensures FilterEntrepreneurs(MockData.MockEntrepreneurs, "", "FinTech", "") == []
  {
    Seqs.FilterNone(MockData.MockEntrepreneurs, (e: Entrepreneur) => Matches(e, "", "FinTech", ""));
  }

  const DescriptionLimit: nat := 120

  /** The card text: a description over 120 characters is cut to its first
      120 and followed by "...". */
  function ShortDescription(d: string): (r: string)
    ensures |d| <= DescriptionLimit ==> r == d
    ensures |d| > DescriptionLimit ==>
      |r| == DescriptionLimit + 3 && r[..DescriptionLimit] == d[..DescriptionLimit]
      && r[DescriptionLimit..] == "..."
  {
    if |d| > DescriptionLimit then d[..DescriptionLimit] + "..." else d
  }

  /** Shortening a shown description again changes nothing. */
  lemma ShortDescriptionIdempotent(d: string)
    ensures ShortDescription(ShortDescription(d)) == ShortDescription(d)
  {
    if |d| > DescriptionLimit {
      var r := ShortDescription(d);
      assert r[..DescriptionLimit] + "..." == r;
    }
  }

  /** The stage text on a card: `Label` of the stored stage string. */
  function StageLabel(s: Stage): (r: string)
    ensures |r| == |StageName(s)|
  {
    Label(StageName(s))
  }

  /** Only the first letter is capitalised and only the first '-' becomes a
      space. */
  lemma StageLabels(st: Stage)
    ensures StageLabel(st) == match st
      case Seed => "Seed"
      case SeriesA => "Series a"
      case SeriesB => "Series b"
      case SeriesC => "Series c"
      case Ipo => "Ipo"
  {
    var s := StageName(st);
    if st == Seed || st == Ipo {
      NoDashLabel(s);
    } else {
      SeriesLabel(s);
    }
  }

  /** A name without '-' only gets its first letter capitalised. */
  lemma NoDashLabel(s: string)
    requires s != [] && forall i :: 0 <= i < |s| ==> s[i] != '-'
    ensures Label(s) == [UpperChar(s[0])] + s[1..]
  {
  }

  /** "series-" followed by a letter becomes "Series " and that letter. */
  lemma SeriesLabel(s: string)
    requires |s| == 8 && s[0] == 's' && s[6] == '-' && s[7] != '-'
    requires forall i :: 1 <= i < 6 ==> s[i] != '-'
    ensures Label(s) == ['S', s[1], s[2], s[3], s[4], s[5], ' ', s[7]]
  {
    assert '-' !in s[1..6];
    assert '-' in s[1..7];
  }

  /** The badge colour a discovery card gives a stage: series-c is not
      singled out and shares the grey of ipo. */
  function CardStageColor(s: Stage): string {
    match s
    case Seed => "bg-green-100 text-green-800"
    case SeriesA => "bg-blue-100 text-blue-800"
    case SeriesB => "bg-purple-100 text-purple-800"
    case _ => "bg-gray-100 text-gray-800"
  }
}
