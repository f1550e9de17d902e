/** `get_last_page_num`: the total page count read from an HTTP `Link` header
    (the link-value list of RFC 8288, section 3), parsed the way the script does it. */
module Pagination {
  import opened Wrappers
  import opened Errors
  import opened Text
  import opened Endpoints

  const LastRel: string := "rel=\"last\""
  const PageParam: string := "page="

  /** The page number of one link: the text after its final `page=` and before the next `>`,
      read as a decimal integer. */
  function PageNumberOf(link: string): Result<int, Error> {
    match ParseInt(BeforeFirst(AfterLast(link, PageParam), '>'))
    case None => Err(ValueError)
    case Some(n) => Ok(n)
  }

  /** The loop over the split links: the first one mentioning `rel="last"` decides. */
  function LastPageFrom(links: seq<string>): Result<int, Error>
    decreases |links|
  {
    if links == [] then Ok(1)
    else if Contains(links[0], LastRel) then PageNumberOf(links[0])
    else LastPageFrom(links[1..])
  }

  /** The last page number read from a response's `Link` header, when it has one. */
  function GetLastPageNum(linkHeader: Option<string>): Result<int, Error> {
    match linkHeader
    case None => Ok(1)
    case Some(h) => if h == "" then Ok(1) else LastPageFrom(Split(h, ','))
  }

  /** A missing or empty header means a single page. */
  lemma LastPageAbsent()
    ensures GetLastPageNum(None) == Ok(1)
    ensures GetLastPageNum(Some("")) == Ok(1)
  {
  }

  lemma {:induction false} LastPageFromNoLast(links: seq<string>)
    requires forall i :: 0 <= i < |links| ==> !Contains(links[i], LastRel)
    ensures LastPageFrom(links) == Ok(1)
    decreases |links|
  {
    if links != [] {
      LastPageFromNoLast(links[1..]);
    }
  }

  lemma {:induction false} LastPageFromFirstLast(links: seq<string>, i: nat)
    requires i < |links| && Contains(links[i], LastRel)
    requires forall j :: 0 <= j < i ==> !Contains(links[j], LastRel)
    ensures LastPageFrom(links) == PageNumberOf(links[i])
    decreases i
  {
    if i > 0 {
      LastPageFromFirstLast(links[1..], i - 1);
    }
  }

  /** A header none of whose comma-separated parts mentions `rel="last"` means a single page. */
  lemma LastPageWithoutLastRel(h: string)
    requires forall i :: 0 <= i < |Split(h, ',')| ==> !Contains(Split(h, ',')[i], LastRel)
    ensures GetLastPageNum(Some(h)) == Ok(1)
  {
    LastPageFromNoLast(Split(h, ','));
  }

  /** Otherwise the first part mentioning `rel="last"` gives the page number, or a ValueError. */
  lemma LastPageFromFirstLastRel(h: string, i: nat)
    requires h != "" && i < |Split(h, ',')|
    requires Contains(Split(h, ',')[i], LastRel)
    requires forall j :: 0 <= j < i ==> !Contains(Split(h, ',')[j], LastRel)
    ensures GetLastPageNum(Some(h)) == PageNumberOf(Split(h, ',')[i])
  {
    LastPageFromFirstLast(Split(h, ','), i);
  }

  // A header as the API writes it, used to state what the parser recovers.

  datatype Rel = First | Prev | Next | Last

  /** One link-value: `<{target}page={page}>; rel="{rel}"`. */
  datatype Link = Link(target: string, page: nat, rel: Rel)

  function RelName(r: Rel): string {
    match r
    case First => "first"
    case Prev => "prev"
    case Next => "next"
    case Last => "last"
  }

  /** Targets are URLs: no comma and no double quote. */
  predicate WellFormed(l: Link) {
    ',' !in l.target && '"' !in l.target
  }

  /** The text before the opening quote of the relation name. */
  function LinkHead(lead: string, l: Link): string {
    lead + "<" + l.target + PageParam + Decimal(l.page) + ">; rel="
  }

  /** One comma-separated part of the header, after `lead` (a blank after the comma). */
  function Segment(lead: string, l: Link): string {
    LinkHead(lead, l) + "\"" + RelName(l.rel) + "\""
  }

  function Segments(links: seq<Link>): (r: seq<string>)
    ensures |r| == |links|
    ensures forall i :: 0 <= i < |links| ==> r[i] == Segment(if i == 0 then "" else " ", links[i])
  {
    seq(|links|, i requires 0 <= i < |links| => Segment(if i == 0 then "" else " ", links[i]))
  }

  /** The whole header: the segments joined by ", ". */
  function RenderHeader(links: seq<Link>): string {
    Join(Segments(links), ',')
  }

  /** The page of the first link whose relation is "last". */
  function LastRelPage(links: seq<Link>): Option<nat>
    decreases |links|
  {
    if links == [] then None
    else if links[0].rel == Last then Some(links[0].page)
    else LastRelPage(links[1..])
  }

  /** The only double quotes in a segment are the two around the relation name. */
  lemma SegmentQuotes(lead: string, l: Link)
    requires WellFormed(l) && '"' !in lead
    ensures var s, a := Segment(lead, l), LinkHead(lead, l);
            forall j :: 0 <= j < |s| && j != |a| && j != |s| - 1 ==> s[j] != '"'
  {
    var s, a := Segment(lead, l), LinkHead(lead, l);
    var n := RelName(l.rel);
    assert '"' !in a;
    assert s == a + ['"'] + n + ['"'];
    forall j | 0 <= j < |s| && j != |a| && j != |s| - 1 ensures s[j] != '"' {
      if j < |a| {
        assert s[j] == a[j];
      } else {
        assert s[j] == n[j - |a| - 1];
      }
    }
  }

  /** A segment mentions `rel="last"` exactly when its relation is "last". */
  lemma SegmentMentionsLast(lead: string, l: Link)
    requires WellFormed(l) && '"' !in lead
    ensures Contains(Segment(lead, l), LastRel) <==> l.rel == Last
  {
    var s := Segment(lead, l);
    var a := LinkHead(lead, l);
    if l.rel == Last {
      var a0 := lead + "<" + l.target + PageParam + Decimal(l.page) + ">; ";
      assert s == a0 + LastRel;
      assert s[|a0|..|a0| + |LastRel|] == LastRel;
      assert OccursAt(s, LastRel, |a0|);
    } else {
      assert s == a + ['"'] + RelName(l.rel) + ['"'];
      assert s[|a| + 1] == RelName(l.rel)[0] != 'l';
      SegmentQuotes(lead, l);
      forall k | 0 <= k <= |s| ensures !OccursAt(s, LastRel, k) {
        if k + |LastRel| <= |s| {
          if k + 4 == |a| {
            assert s[k..k + |LastRel|][5] == s[k + 5] != 'l';
          } else {
            assert s[k..k + |LastRel|][4] == s[k + 4] != '"';
          }
        }
      }
    }
  }

  lemma SegmentNoComma(lead: string, l: Link)
    requires WellFormed(l) && ',' !in lead
    ensures ',' !in Segment(lead, l)
  {
  }

  /** What follows the last `page=` of a segment: the page digits, `>` and the relation. */
  function SegmentTail(l: Link): string {
    Decimal(l.page) + ['>'] + ("; rel=\"" + RelName(l.rel) + "\"")
  }

  lemma SegmentSplit(lead: string, l: Link)
    ensures Segment(lead, l) == (lead + "<" + l.target) + PageParam + SegmentTail(l)
  {
  }

  lemma SegmentAfterLastPage(lead: string, l: Link)
    ensures AfterLast(Segment(lead, l), PageParam) == SegmentTail(l)
  {
    var y := SegmentTail(l);
    SegmentSplit(lead, l);
    assert 'g' !in y;
    MissingCharNoOccurrence(y, PageParam, 'g');
    UniqueHeadBorderless(PageParam);
    AfterLastOfSuffix(lead + "<" + l.target, PageParam, y);
  }

  /** The page number parsed out of a segment is the one written into it. */
  lemma SegmentPage(lead: string, l: Link)
    ensures PageNumberOf(Segment(lead, l)) == Ok(l.page)
  {
    SegmentAfterLastPage(lead, l);
    BeforeFirstOfPrefix(Decimal(l.page), '>', "; rel=\"" + RelName(l.rel) + "\"");
    ParseIntRoundTrip(l.page);
  }

  lemma {:induction false} LastPageFromSegments(links: seq<Link>, segs: seq<string>, first: string)
    requires |segs| == |links|
    requires '"' !in first && forall i :: 0 <= i < |links| ==> WellFormed(links[i])
    requires forall i :: 0 <= i < |links| ==> segs[i] == Segment(if i == 0 then first else " ", links[i])
    ensures LastPageFrom(segs) == Ok(match LastRelPage(links) case None => 1 case Some(p) => p)
    decreases |links|
  {
    if links != [] {
      SegmentMentionsLast(first, links[0]);
      if links[0].rel == Last {
        SegmentPage(first, links[0]);
      } else {
        LastPageFromSegments(links[1..], segs[1..], " ");
      }
    }
  }

  lemma SegmentsNoComma(links: seq<Link>)
    requires forall i :: 0 <= i < |links| ==> WellFormed(links[i])
    ensures forall i :: 0 <= i < |Segments(links)| ==> ',' !in Segments(links)[i]
  {
    var segs := Segments(links);
    forall i | 0 <= i < |segs| ensures ',' !in segs[i] {
      SegmentNoComma(if i == 0 then "" else " ", links[i]);
    }
  }

  lemma RenderHeaderSplits(links: seq<Link>)
    requires links != []
    requires forall i :: 0 <= i < |links| ==> WellFormed(links[i])
    ensures RenderHeader(links) != ""
    ensures Split(RenderHeader(links), ',') == Segments(links)
  {
    var segs := Segments(links);
    SegmentsNoComma(links);
    SplitJoin(segs, ',');
    assert |segs[0]| > 0 by {
      assert segs[0] == Segment("", links[0]);
    }
  }

  /** Parsing a header written as the API writes it gives the page of its first "last" link,
      and 1 when there is none. */
  lemma LastPageOfRenderedHeader(links: seq<Link>)
    requires forall i :: 0 <= i < |links| ==> WellFormed(links[i])
    ensures GetLastPageNum(Some(RenderHeader(links)))
            == Ok(match LastRelPage(links) case None => 1 case Some(p) => p)
  {
    if links != [] {
      RenderHeaderSplits(links);
      LastPageFromSegments(links, Segments(links), "");
    } else {
      assert RenderHeader(links) == "";
    }
  }

  /** The links the API sends with the first page of an endpoint: `next` is page 2, `last` is page `n`. */
  function FirstPageLinks(url: string, n: nat): seq<Link> {
    [Link(url + "&", 2, Next), Link(url + "&", n, Last)]
  }

  /** The header of the first page resolves to the endpoint's page count. */
  lemma LastPageOfFirstPage(user: string, repo: string, endpoint: string, category: string, n: nat)
    requires ',' !in user && ',' !in repo && ',' !in endpoint && ',' !in category
    requires '"' !in user && '"' !in repo && '"' !in endpoint && '"' !in category
    ensures GetLastPageNum(Some(RenderHeader(FirstPageLinks(GithubUrl(user, repo, endpoint, category), n)))) == Ok(n)
  {
    var url := GithubUrl(user, repo, endpoint, category);
    GithubUrlAvoids(user, repo, endpoint, category, ',');
    GithubUrlAvoids(user, repo, endpoint, category, '"');
    var links := FirstPageLinks(url, n);
    assert WellFormed(links[0]) && WellFormed(links[1]);
    LastPageOfRenderedHeader(links);
  }
}
