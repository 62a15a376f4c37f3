/** OtherProjectsSidebarGenerator: the "In other projects" sidebar section
    of a client page, built from the site links of the item the page is
    linked to.

    The sidebar is a two-level PHP array: site group => global site id =>
    the attributes of one link ("msg", "class", "href", optionally
    "hreflang", plus whatever the badge display adds). It is flattened to a
    list ordered by group and then by global site id. */
module OtherProjectsSidebar {
  import opened Common
  import opened PhpArrays
  import opened PhpSort

  datatype Site = Site(globalId: string, group: string, languageCode: Option<string>)

  datatype SiteLink = SiteLink(siteId: string, pageName: string, badges: seq<string>)

  /** `isset( $link[$name] ) && is_string( $link[$name] )` */
  predicate HasString(link: Value, name: string) {
    link.Arr? && match Get(link.entries, StrKey(name)) case Some(Str(_)) => true case _ => false
  }

  /** One per-site entry of a valid sidebar. */
  predicate ValidLink(e: Entry) {
    e.key.StrKey? && HasString(e.value, "msg") && HasString(e.value, "class") && HasString(e.value, "href")
  }

  /** One per-group entry of a valid sidebar. */
  predicate ValidGroup(e: Entry) {
    e.key.StrKey? && e.value.Arr? && forall l | l in e.value.entries :: ValidLink(l)
  }

  /** The inner loop of isValidSidebar. */
  function AllLinksValid(perSiteGroup: seq<Entry>): (r: bool)
    ensures r <==> forall l | l in perSiteGroup :: ValidLink(l)
  {
    if perSiteGroup == [] then true
    else if !ValidLink(perSiteGroup[0]) then
      assert perSiteGroup[0] in perSiteGroup;
      false
    else
      assert perSiteGroup == [perSiteGroup[0]] + perSiteGroup[1..];
      AllLinksValid(perSiteGroup[1..])
  }

  /** isValidSidebar: stops at the first group or link that is not
      well-formed. */
  function IsValidSidebar(sidebar: seq<Entry>): (r: bool)
    ensures r <==> forall e | e in sidebar :: ValidGroup(e)
  {
    if sidebar == [] then true
    else if !sidebar[0].key.StrKey? || !sidebar[0].value.Arr? || !AllLinksValid(sidebar[0].value.entries) then
      assert sidebar[0] in sidebar;
      false
    else
      assert sidebar == [sidebar[0]] + sidebar[1..];
      IsValidSidebar(sidebar[1..])
  }

  /** The badge display's change to a link's attributes: every attribute of
      the badge information that the link does not have yet is added. */
  function ApplyBadgeToLink(attributes: seq<Entry>, badgeInfo: seq<Entry>): seq<Entry>
    decreases |badgeInfo|
  {
    if badgeInfo == [] then attributes
    else
      var e := badgeInfo[0];
      var next := if e.key in KeySet(attributes) then attributes else Set(attributes, e.key, e.value);
      ApplyBadgeToLink(next, badgeInfo[1..])
  }

  /** The badge display keeps every attribute the link has and takes the
      others from the badge information. */
  lemma {:induction false} ApplyBadgeToLinkGet(attributes: seq<Entry>, badgeInfo: seq<Entry>, k: Key)
    ensures Get(ApplyBadgeToLink(attributes, badgeInfo), k)
         == if k in KeySet(attributes) then Get(attributes, k) else Get(badgeInfo, k)
    decreases |badgeInfo|
  {
    if badgeInfo != [] {
      var e := badgeInfo[0];
      var next := if e.key in KeySet(attributes) then attributes else Set(attributes, e.key, e.value);
      SetShape(attributes, e.key, e.value);
      ApplyBadgeToLinkGet(next, badgeInfo[1..], k);
    }
  }

  lemma {:induction false} ApplyBadgeToLinkKeys(attributes: seq<Entry>, badgeInfo: seq<Entry>)
    ensures KeySet(ApplyBadgeToLink(attributes, badgeInfo)) == KeySet(attributes) + KeySet(badgeInfo)
    decreases |badgeInfo|
  {
    if badgeInfo != [] {
      var e := badgeInfo[0];
      var next := if e.key in KeySet(attributes) then attributes else Set(attributes, e.key, e.value);
      SetShape(attributes, e.key, e.value);
      ApplyBadgeToLinkKeys(next, badgeInfo[1..]);
    }
  }

  /** The sidebar is flattened group by group; a group contributes its links
      sorted by global site id. */
  function GroupLinks(e: Entry): seq<Value> {
    Values(KSort(EntriesOf(e.value)))
  }

  /** What a group holds, in its own order. */
  function UnsortedGroupLinks(e: Entry): seq<Value> {
    Values(EntriesOf(e.value))
  }

  /** The result of sortAndFlattenSidebar: groups sorted by key, each group's
      links sorted by key, concatenated. */
  function FlattenedSidebar(sidebar: seq<Entry>): seq<Value> {
    FlatMap(KSort(sidebar), GroupLinks)
  }

  function LinkCount(sidebar: seq<Entry>): nat {
    if sidebar == [] then 0 else |EntriesOf(sidebar[0].value)| + LinkCount(sidebar[1..])
  }

  lemma ValueOfValues(a: seq<Entry>)
    ensures Values(a) == FlatMap(a, ValueOf)
  {
    if a != [] {
      ValueOfValues(a[1..]);
    }
  }

  function ValueOf(e: Entry): seq<Value> {
    [e.value]
  }

  lemma {:induction false} FlatMapCongruent(a: seq<Entry>, f: Entry -> seq<Value>, g: Entry -> seq<Value>)
    requires forall e | e in a :: multiset(f(e)) == multiset(g(e))
    ensures multiset(FlatMap(a, f)) == multiset(FlatMap(a, g))
  {
    if a != [] {
      assert a[0] in a;
      FlatMapCongruent(a[1..], f, g);
    }
  }

  lemma {:induction false} UnsortedLinkCount(sidebar: seq<Entry>)
    ensures |FlatMap(sidebar, UnsortedGroupLinks)| == LinkCount(sidebar)
  {
    if sidebar != [] {
      UnsortedLinkCount(sidebar[1..]);
    }
  }

  /** Flattening only reorders: every link of every group is in the result,
      as often as in the sidebar. */
  lemma FlattenedPermutation(sidebar: seq<Entry>)
    ensures multiset(FlattenedSidebar(sidebar)) == multiset(FlatMap(sidebar, UnsortedGroupLinks))
  {
    forall e | e in KSort(sidebar)
      ensures multiset(GroupLinks(e)) == multiset(UnsortedGroupLinks(e))
    {
      var links := EntriesOf(e.value);
      ValueOfValues(KSort(links));
      ValueOfValues(links);
      FlatMapKSort(links, ValueOf);
    }
    FlatMapCongruent(KSort(sidebar), GroupLinks, UnsortedGroupLinks);
    FlatMapKSort(sidebar, UnsortedGroupLinks);
  }

  /** The flattened sidebar has one element per link of the sidebar. */
  lemma FlattenedLength(sidebar: seq<Entry>)
    ensures |FlattenedSidebar(sidebar)| == LinkCount(sidebar)
  {
    FlattenedPermutation(sidebar);
    UnsortedLinkCount(sidebar);
    assert |multiset(FlattenedSidebar(sidebar))| == |multiset(FlatMap(sidebar, UnsortedGroupLinks))|;
  }

  /** A link of the flattened sidebar together with its group and global
      site id. */
  datatype Placement = Placement(group: Key, site: Key, link: Value)

  function PlaceGroup(group: Key, links: seq<Entry>): (r: seq<Placement>)
    ensures |r| == |links|
    ensures forall i | 0 <= i < |links| :: r[i] == Placement(group, links[i].key, links[i].value)
  {
    if links == [] then [] else [Placement(group, links[0].key, links[0].value)] + PlaceGroup(group, links[1..])
  }

  function GroupPlacements(e: Entry): seq<Placement> {
    PlaceGroup(e.key, KSort(EntriesOf(e.value)))
  }

  /** Where each link of the flattened sidebar comes from. */
  function Placements(sidebar: seq<Entry>): seq<Placement> {
    FlatMap(KSort(sidebar), GroupPlacements)
  }

  function LinksOf(ps: seq<Placement>): (r: seq<Value>)
    ensures |r| == |ps|
    ensures forall i | 0 <= i < |ps| :: r[i] == ps[i].link
  {
    if ps == [] then [] else [ps[0].link] + LinksOf(ps[1..])
  }

  /** Ordered by group, then by global site id. */
  predicate PlacementLeq(p: Placement, q: Placement) {
    KeyLess(p.group, q.group) || (p.group == q.group && KeyLeq(p.site, q.site))
  }

  ghost predicate InSidebarOrder(ps: seq<Placement>) {
    forall i, j | 0 <= i < j < |ps| :: PlacementLeq(ps[i], ps[j])
  }

  lemma {:induction false} LinksOfGroupPlacements(a: seq<Entry>)
    ensures LinksOf(FlatMap(a, GroupPlacements)) == FlatMap(a, GroupLinks)
  {
    if a != [] {
      LinksOfGroupPlacements(a[1..]);
      var head := GroupPlacements(a[0]);
      var tail := FlatMap(a[1..], GroupPlacements);
      LinksOfPlaceGroup(a[0].key, KSort(EntriesOf(a[0].value)));
      LinksOfConcat(head, tail);
    }
  }

  lemma LinksOfPlaceGroup(group: Key, links: seq<Entry>)
    ensures LinksOf(PlaceGroup(group, links)) == Values(links)
  {
    assert forall i | 0 <= i < |links| :: LinksOf(PlaceGroup(group, links))[i] == Values(links)[i];
  }

  lemma LinksOfConcat(ps: seq<Placement>, qs: seq<Placement>)
    ensures LinksOf(ps + qs) == LinksOf(ps) + LinksOf(qs)
  {
    var l, r := LinksOf(ps + qs), LinksOf(ps) + LinksOf(qs);
    forall i | 0 <= i < |ps + qs| ensures l[i] == r[i] {
      if i < |ps| {
        assert (ps + qs)[i] == ps[i] && r[i] == LinksOf(ps)[i];
      } else {
        assert (ps + qs)[i] == qs[i - |ps|] && r[i] == LinksOf(qs)[i - |ps|];
      }
    }
  }

  lemma {:induction false} PlacementGroupKey(a: seq<Entry>, p: Placement)
    requires p in FlatMap(a, GroupPlacements)
    ensures p.group in KeySet(a)
  {
    if p !in GroupPlacements(a[0]) {
      PlacementGroupKey(a[1..], p);
    }
  }

  lemma {:induction false} KeySetIndex(a: seq<Entry>, k: Key) returns (i: nat)
    requires k in KeySet(a)
    ensures i < |a| && a[i].key == k
  {
    if a[0].key == k {
      i := 0;
    } else {
      var j := KeySetIndex(a[1..], k);
      i := j + 1;
    }
  }

  /** Within one group the placements follow the sorted global site ids. */
  lemma GroupOrdered(e: Entry)
    ensures InSidebarOrder(GroupPlacements(e))
  {
    var links := KSort(EntriesOf(e.value));
    var ps := GroupPlacements(e);
    forall i, j | 0 <= i < j < |ps| ensures PlacementLeq(ps[i], ps[j]) {
      assert ps[i].site == links[i].key && ps[j].site == links[j].key;
    }
  }

  /** Every placement of the first group comes before every placement of
      the later groups. */
  lemma HeadBeforeTail(a: seq<Entry>, p: Placement, q: Placement)
    requires SortedByKey(a) && DistinctKeys(a) && a != []
    requires p in GroupPlacements(a[0]) && q in FlatMap(a[1..], GroupPlacements)
    ensures PlacementLeq(p, q)
  {
    PlacementGroupKey(a[1..], q);
    var j := KeySetIndex(a[1..], q.group);
    assert a[1..][j] == a[j + 1];
    assert p.group == a[0].key;
    SortedDistinctStrict(a, 0, j + 1);
  }

  lemma ConcatOrdered(ps: seq<Placement>, qs: seq<Placement>)
    requires InSidebarOrder(ps) && InSidebarOrder(qs)
    requires forall p, q | p in ps && q in qs :: PlacementLeq(p, q)
    ensures InSidebarOrder(ps + qs)
  {
    forall i, j | 0 <= i < j < |ps + qs| ensures PlacementLeq((ps + qs)[i], (ps + qs)[j]) {
      if j < |ps| {
        assert (ps + qs)[i] == ps[i] && (ps + qs)[j] == ps[j];
      } else if i < |ps| {
        assert (ps + qs)[i] in ps && (ps + qs)[j] in qs;
      } else {
        assert (ps + qs)[i] == qs[i - |ps|] && (ps + qs)[j] == qs[j - |ps|];
      }
    }
  }

  lemma {:induction false} PlacementsOrdered(a: seq<Entry>)
    requires SortedByKey(a) && DistinctKeys(a)
    ensures InSidebarOrder(FlatMap(a, GroupPlacements))
  {
    if a != [] {
      var head := GroupPlacements(a[0]);
      var tail := FlatMap(a[1..], GroupPlacements);
      assert SortedByKey(a[1..]) by {
        forall i, j | 0 <= i < j < |a[1..]| ensures KeyLeq(a[1..][i].key, a[1..][j].key) {
          assert a[1..][i] == a[i + 1] && a[1..][j] == a[j + 1];
        }
      }
      PlacementsOrdered(a[1..]);
      GroupOrdered(a[0]);
      forall p, q | p in head && q in tail ensures PlacementLeq(p, q) {
        HeadBeforeTail(a, p, q);
      }
      ConcatOrdered(head, tail);
    }
  }

  /** The flattened sidebar lists the links by group and then by global
      site id, each exactly where its placement says. */
  lemma FlattenedOrder(sidebar: seq<Entry>)
    requires DistinctKeys(sidebar)
    ensures LinksOf(Placements(sidebar)) == FlattenedSidebar(sidebar)
    ensures InSidebarOrder(Placements(sidebar))
  {
    LinksOfGroupPlacements(KSort(sidebar));
    KSortDistinct(sidebar);
    PlacementsOrdered(KSort(sidebar));
  }

  lemma {:induction false} FlatMapSnoc<T>(a: seq<Entry>, i: nat, f: Entry -> seq<T>)
    requires i < |a|
    ensures FlatMap(a[..i + 1], f) == FlatMap(a[..i], f) + f(a[i])
  {
    if i > 0 {
      FlatMapSnoc(a[1..], i - 1, f);
      assert a[..i + 1][1..] == a[1..][..i];
      assert a[..i][1..] == a[1..][..i - 1];
    }
  }

  class OtherProjectsSidebarGenerator {
    const localSiteId: string
    /** SiteLinkLookup::getItemIdForLink */
    const getItemIdForLink: (string, string) -> Option<EntityId>
    /** SiteLinksForDisplayLookup::getSiteLinksForItemId */
    const getSiteLinksForItemId: EntityId -> seq<SiteLink>
    /** SiteLookup::getSite */
    const getSite: string -> Option<Site>
    /** Site::getPageUrl */
    const pageUrl: (Site, string) -> string
    /** LanguageCode::bcp47 */
    const bcp47: string -> string
    /** SidebarLinkBadgeDisplay::getBadgeInfo */
    const badgeInfo: seq<string> -> seq<Entry>
    /** The WikibaseClientOtherProjectsSidebar hook: item id, sidebar and
        site ids to output in, the sidebar it leaves behind out. */
    const hook: (EntityId, Value, seq<string>) -> Value
    const siteIdsToOutput: seq<string>

    constructor (localSiteId: string, getItemIdForLink: (string, string) -> Option<EntityId>,
      getSiteLinksForItemId: EntityId -> seq<SiteLink>, getSite: string -> Option<Site>,
      pageUrl: (Site, string) -> string, bcp47: string -> string, badgeInfo: seq<string> -> seq<Entry>,
      hook: (EntityId, Value, seq<string>) -> Value, siteIdsToOutput: seq<string>)
      ensures this.localSiteId == localSiteId && this.getItemIdForLink == getItemIdForLink
      ensures this.getSiteLinksForItemId == getSiteLinksForItemId && this.getSite == getSite
      ensures this.pageUrl == pageUrl && this.bcp47 == bcp47 && this.badgeInfo == badgeInfo
      ensures this.hook == hook && this.siteIdsToOutput == siteIdsToOutput
    {
      this.localSiteId := localSiteId;
      this.getItemIdForLink := getItemIdForLink;
      this.getSiteLinksForItemId := getSiteLinksForItemId;
      this.getSite := getSite;
      this.pageUrl := pageUrl;
      this.bcp47 := bcp47;
      this.badgeInfo := badgeInfo;
      this.hook := hook;
      this.siteIdsToOutput := siteIdsToOutput;
    }

    /** The sidebar for a page: empty when the page is not linked to an
        item. */
    method BuildProjectLinkSidebar(prefixedTitle: string) returns (r: seq<Value>)
      ensures getItemIdForLink(localSiteId, prefixedTitle).None? ==> r == []
      ensures getItemIdForLink(localSiteId, prefixedTitle).Some? ==>
        r == FlattenedSidebar(RunHook(getItemIdForLink(localSiteId, prefixedTitle).value,
          PreliminarySidebar(getSiteLinksForItemId(getItemIdForLink(localSiteId, prefixedTitle).value))))
    {
      var itemId := getItemIdForLink(localSiteId, prefixedTitle);
      if itemId.None? {
        return [];
      }
      r := BuildProjectLinkSidebarFromItemId(itemId.value);
    }

    method BuildProjectLinkSidebarFromItemId(itemId: EntityId) returns (r: seq<Value>)
      ensures r == FlattenedSidebar(RunHook(itemId, PreliminarySidebar(getSiteLinksForItemId(itemId))))
      ensures |r| == LinkCount(RunHook(itemId, PreliminarySidebar(getSiteLinksForItemId(itemId))))
    {
      var sidebar := BuildPreliminarySidebarFromSiteLinks(getSiteLinksForItemId(itemId));
      sidebar := RunHook(itemId, sidebar);
      r := SortAndFlattenSidebar(sidebar);
    }

    /** The hook's sidebar when it changed the sidebar into a valid one;
        otherwise the sidebar as it was. */
    function RunHook(itemId: EntityId, sidebar: seq<Entry>): (r: seq<Entry>)
      ensures hook(itemId, Arr(sidebar), siteIdsToOutput).Arr? && IsValidSidebar(hook(itemId, Arr(sidebar), siteIdsToOutput).entries)
        ==> r == hook(itemId, Arr(sidebar), siteIdsToOutput).entries
      ensures !(hook(itemId, Arr(sidebar), siteIdsToOutput).Arr? && IsValidSidebar(hook(itemId, Arr(sidebar), siteIdsToOutput).entries))
        ==> r == sidebar
      ensures IsValidSidebar(sidebar) ==> IsValidSidebar(r)
    {
      var newSidebar := hook(itemId, Arr(sidebar), siteIdsToOutput);
      if newSidebar == Arr(sidebar) then sidebar
      else if !newSidebar.Arr? || !IsValidSidebar(newSidebar.entries) then sidebar
      else newSidebar.entries
    }

    /** The site under which a site link is shown, if any: its site must be
        listed for output and known to the site lookup. */
    function ShownSite(siteLink: SiteLink): (r: Option<Site>)
      ensures r.Some? <==> siteLink.siteId in siteIdsToOutput && getSite(siteLink.siteId).Some?
      ensures r.Some? ==> r == getSite(siteLink.siteId)
    {
      if siteLink.siteId !in siteIdsToOutput then None else getSite(siteLink.siteId)
    }

    /** The sidebar buildPreliminarySidebarFromSiteLinks builds: each shown
        link written at [group][global id], in order. It passes the
        generator's own validity check, and no group is repeated. */
    function PreliminarySidebar(siteLinks: seq<SiteLink>): (r: seq<Entry>)
      ensures IsValidSidebar(r) && DistinctKeys(r)
    {
      if siteLinks == [] then []
      else
        var prev := PreliminarySidebar(siteLinks[..|siteLinks| - 1]);
        var siteLink := siteLinks[|siteLinks| - 1];
        match ShownSite(siteLink)
        case None => prev
        case Some(site) =>
          PreliminaryStep(prev, siteLink, site);
          SetPath(prev, [StrKey(site.group), StrKey(site.globalId)], Arr(BuildSidebarLink(siteLink, site)))
    }

    /** Writing one more link at [group][global id] keeps the sidebar valid
        and its groups distinct. */
    lemma PreliminaryStep(prev: seq<Entry>, siteLink: SiteLink, site: Site)
      requires IsValidSidebar(prev) && DistinctKeys(prev)
      ensures var next := SetPath(prev, [StrKey(site.group), StrKey(site.globalId)], Arr(BuildSidebarLink(siteLink, site)));
        IsValidSidebar(next) && DistinctKeys(next)
    {
      var group := StrKey(site.group);
      var link := Entry(StrKey(site.globalId), Arr(BuildSidebarLink(siteLink, site)));
      var inner := EntriesOf(Get(prev, group).GetOr(Null));
      var groupValue := Arr(Set(inner, link.key, link.value));
      var path := [group, link.key];
      assert path[1..] == [link.key];
      assert SetPath(inner, [link.key], link.value) == Set(inner, link.key, link.value);
      assert SetPath(prev, path, link.value) == Set(prev, group, groupValue);
      SetValidGroup(prev, group, inner, link);
      SetShape(prev, group, groupValue);
      SetDistinct(prev, group, groupValue);
    }

    predicate ShownAt(siteLink: SiteLink, group: string, globalId: string) {
      ShownSite(siteLink).Some? && ShownSite(siteLink).value.group == group && ShownSite(siteLink).value.globalId == globalId
    }

    /** The link shown at [group][global id]: built from the last site link
        shown there, searching from the end. */
    function LastLinkAt(siteLinks: seq<SiteLink>, group: string, globalId: string): Option<Value> {
      if siteLinks == [] then None
      else
        var siteLink := siteLinks[|siteLinks| - 1];
        if ShownAt(siteLink, group, globalId) then Some(Arr(BuildSidebarLink(siteLink, ShownSite(siteLink).value)))
        else LastLinkAt(siteLinks[..|siteLinks| - 1], group, globalId)
    }

    /** There is a link at [group][global id] exactly when some site link is
        shown there. */
    lemma {:induction false} LastLinkAtAbsent(siteLinks: seq<SiteLink>, group: string, globalId: string)
      ensures LastLinkAt(siteLinks, group, globalId).None?
          <==> forall i | 0 <= i < |siteLinks| :: !ShownAt(siteLinks[i], group, globalId)
    {
      if siteLinks != [] {
        var n := |siteLinks|;
        var prefix := siteLinks[..n - 1];
        if !ShownAt(siteLinks[n - 1], group, globalId) {
          LastLinkAtAbsent(prefix, group, globalId);
          assert forall i | 0 <= i < n - 1 :: prefix[i] == siteLinks[i];
        }
      }
    }

    /** The link at [group][global id] is built from the last site link
        shown there. */
    lemma {:induction false} LastLinkAtIsLast(siteLinks: seq<SiteLink>, group: string, globalId: string) returns (i: nat)
      requires LastLinkAt(siteLinks, group, globalId).Some?
      ensures i < |siteLinks| && ShownAt(siteLinks[i], group, globalId)
      ensures LastLinkAt(siteLinks, group, globalId).value == Arr(BuildSidebarLink(siteLinks[i], ShownSite(siteLinks[i]).value))
      ensures forall j | i < j < |siteLinks| :: !ShownAt(siteLinks[j], group, globalId)
    {
      var n := |siteLinks|;
      var prefix := siteLinks[..n - 1];
      if ShownAt(siteLinks[n - 1], group, globalId) {
        i := n - 1;
      } else {
        assert LastLinkAt(siteLinks, group, globalId) == LastLinkAt(prefix, group, globalId);
        i := LastLinkAtIsLast(prefix, group, globalId);
        assert prefix[i] == siteLinks[i];
        forall j | i < j < n ensures !ShownAt(siteLinks[j], group, globalId) {
          if j < n - 1 {
            assert prefix[j] == siteLinks[j];
          }
        }
      }
    }

    /** What the preliminary sidebar holds at [group][global id] is the link
        built from the last site link shown there; there is nothing at a
        path with an integer key. */
    lemma {:induction false} PreliminaryLookup(siteLinks: seq<SiteLink>, q: seq<Key>)
      requires |q| == 2
      ensures Find(Arr(PreliminarySidebar(siteLinks)), q)
           == if q[0].StrKey? && q[1].StrKey? then LastLinkAt(siteLinks, q[0].s, q[1].s) else None
    {
      if siteLinks != [] {
        var n := |siteLinks|;
        var siteLink := siteLinks[n - 1];
        var prev := PreliminarySidebar(siteLinks[..n - 1]);
        PreliminaryLookup(siteLinks[..n - 1], q);
        match ShownSite(siteLink)
        case None =>
        case Some(site) =>
          var p := [StrKey(site.group), StrKey(site.globalId)];
          FindAfterSetPath(prev, p, q, Arr(BuildSidebarLink(siteLink, site)));
          assert p == q <==> q[0] == StrKey(site.group) && q[1] == StrKey(site.globalId);
      }
    }

    /** The link built for a site link and its site: its own attributes,
        then the badge display's. It always carries the message key, CSS
        classes and URL as strings, as isValidSidebar requires of a link. */
    function BuildSidebarLink(siteLink: SiteLink, site: Site): (r: seq<Entry>)
      ensures HasString(Arr(r), "msg") && HasString(Arr(r), "class") && HasString(Arr(r), "href")
    {
      var attributes := [
        Entry(StrKey("msg"), Str("wikibase-otherprojects-" + site.group)),
        Entry(StrKey("class"), Str("wb-otherproject-link wb-otherproject-" + site.group)),
        Entry(StrKey("href"), Str(pageUrl(site, siteLink.pageName)))];
      var withLanguage :=
        if site.languageCode.Some? then Set(attributes, StrKey("hreflang"), Str(bcp47(site.languageCode.value)))
        else attributes;
      var badges := badgeInfo(siteLink.badges);
      BaseAttributes(attributes[0].value, attributes[1].value, attributes[2].value);
      SetShape(attributes, StrKey("hreflang"), Str(bcp47(site.languageCode.GetOr(""))));
      ApplyBadgeToLinkGet(withLanguage, badges, StrKey("msg"));
      ApplyBadgeToLinkGet(withLanguage, badges, StrKey("class"));
      ApplyBadgeToLinkGet(withLanguage, badges, StrKey("href"));
      ApplyBadgeToLink(withLanguage, badges)
    }

    /** A link carries its message key, CSS classes and URL, a language only
        when its site has one, and otherwise only what the badge display
        adds. */
    lemma SidebarLinkAttributes(siteLink: SiteLink, site: Site)
      ensures var r := BuildSidebarLink(siteLink, site);
        && Get(r, StrKey("msg")) == Some(Str("wikibase-otherprojects-" + site.group))
        && Get(r, StrKey("class")) == Some(Str("wb-otherproject-link wb-otherproject-" + site.group))
        && Get(r, StrKey("href")) == Some(Str(pageUrl(site, siteLink.pageName)))
        && (site.languageCode.Some? ==> Get(r, StrKey("hreflang")) == Some(Str(bcp47(site.languageCode.value))))
        && (site.languageCode.None? ==> Get(r, StrKey("hreflang")) == Get(badgeInfo(siteLink.badges), StrKey("hreflang")))
        && KeySet(r) == {StrKey("msg"), StrKey("class"), StrKey("href")}
          + (if site.languageCode.Some? then {StrKey("hreflang")} else {})
          + KeySet(badgeInfo(siteLink.badges))
    {
      var attributes := [
        Entry(StrKey("msg"), Str("wikibase-otherprojects-" + site.group)),
        Entry(StrKey("class"), Str("wb-otherproject-link wb-otherproject-" + site.group)),
        Entry(StrKey("href"), Str(pageUrl(site, siteLink.pageName)))];
      var withLanguage :=
        if site.languageCode.Some? then Set(attributes, StrKey("hreflang"), Str(bcp47(site.languageCode.value)))
        else attributes;
      BaseAttributes(attributes[0].value, attributes[1].value, attributes[2].value);
      var badges := badgeInfo(siteLink.badges);
      if site.languageCode.Some? {
        SetShape(attributes, StrKey("hreflang"), Str(bcp47(site.languageCode.value)));
      }
      ApplyBadgeToLinkKeys(withLanguage, badges);
      ApplyBadgeToLinkGet(withLanguage, badges, StrKey("msg"));
      ApplyBadgeToLinkGet(withLanguage, badges, StrKey("class"));
      ApplyBadgeToLinkGet(withLanguage, badges, StrKey("href"));
      ApplyBadgeToLinkGet(withLanguage, badges, StrKey("hreflang"));
    }

    /** The three attributes every link starts with. */
    lemma BaseAttributes(msg: Value, cls: Value, href: Value)
      ensures var a := [Entry(StrKey("msg"), msg), Entry(StrKey("class"), cls), Entry(StrKey("href"), href)];
        && Get(a, StrKey("msg")) == Some(msg) && Get(a, StrKey("class")) == Some(cls)
        && Get(a, StrKey("href")) == Some(href) && Get(a, StrKey("hreflang")) == None
        && KeySet(a) == {StrKey("msg"), StrKey("class"), StrKey("href")}
    {
      var a := [Entry(StrKey("msg"), msg), Entry(StrKey("class"), cls), Entry(StrKey("href"), href)];
      var b, c := a[1..], a[1..][1..];
      assert b == [a[1], a[2]] && c == [a[2]] && c[1..] == [];
      assert |"msg"| == 3 && |"href"| == 4 && |"class"| == 5 && |"hreflang"| == 8;
      assert KeySet(c) == {StrKey("href")} && Get(c, StrKey("href")) == Some(href) && Get(c, StrKey("hreflang")) == None;
      assert KeySet(b) == {StrKey("class"), StrKey("href")} && Get(b, StrKey("class")) == Some(cls);
      assert Get(b, StrKey("href")) == Some(href) && Get(b, StrKey("hreflang")) == None;
    }

    lemma SetValidGroup(prev: seq<Entry>, group: Key, inner: seq<Entry>, link: Entry)
      requires forall e | e in prev :: ValidGroup(e)
      requires group.StrKey? && ValidLink(link)
      requires inner == EntriesOf(Get(prev, group).GetOr(Null))
      ensures ValidGroup(Entry(group, Arr(Set(inner, link.key, link.value))))
    {
      if Get(prev, group).Some? {
        assert Entry(group, Get(prev, group).value) in prev;
      }
      SetShape(inner, link.key, link.value);
    }

    method BuildPreliminarySidebarFromSiteLinks(siteLinks: seq<SiteLink>) returns (linksByGroup: seq<Entry>)
      ensures linksByGroup == PreliminarySidebar(siteLinks)
      ensures IsValidSidebar(linksByGroup) && DistinctKeys(linksByGroup)
    {
      linksByGroup := [];
      for i := 0 to |siteLinks|
        invariant linksByGroup == PreliminarySidebar(siteLinks[..i])
      {
        assert siteLinks[..i + 1][..i] == siteLinks[..i];
        var siteLink := siteLinks[i];
        if siteLink.siteId !in siteIdsToOutput {
          continue;
        }
        var site := getSite(siteLink.siteId);
        if site.Some? {
          var group := site.value.group;
          var globalId := site.value.globalId;
          linksByGroup := SetPath(linksByGroup, [StrKey(group), StrKey(globalId)], Arr(BuildSidebarLink(siteLink, site.value)));
        }
      }
      assert siteLinks[..|siteLinks|] == siteLinks;
    }

    /** Sorts the groups by key and each group by key, then concatenates the
        groups' links. */
    method SortAndFlattenSidebar(linksByGroup: seq<Entry>) returns (result: seq<Value>)
      ensures result == FlattenedSidebar(linksByGroup)
      ensures |result| == LinkCount(linksByGroup)
      ensures multiset(result) == multiset(FlatMap(linksByGroup, UnsortedGroupLinks))
    {
      result := [];
      var sorted := KSort(linksByGroup);
      for i := 0 to |sorted|
        invariant result == FlatMap(sorted[..i], GroupLinks)
      {
        var linksPerGroup := KSort(EntriesOf(sorted[i].value));
        result := result + Values(linksPerGroup);
        FlatMapSnoc(sorted, i, GroupLinks);
      }
      assert sorted[..|sorted|] == sorted;
      FlattenedLength(linksByGroup);
      FlattenedPermutation(linksByGroup);
    }
  }
}
