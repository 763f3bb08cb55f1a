/**
 * Which navigation entry is highlighted. The bottom bar (phones) and the
 * sidebar (wide screens) each define the same `isActive(href)` over the
 * current pathname: the home entry only on the home page, any other entry
 * on every pathname that starts with the entry's path, its query string
 * dropped.
 */
module Navigation {
  import opened JsValues

  /** The index of the first question mark in `href` at or after `from`, or `|href|` when there is none. */
  function QueryIndex(href: string, from: nat): (k: nat)
    requires from <= |href|
    ensures from <= k <= |href|
    ensures forall i :: from <= i < k ==> href[i] != '?'
    ensures k < |href| ==> href[k] == '?'
    decreases |href| - from
  {
    if from == |href| || href[from] == '?' then from else QueryIndex(href, from + 1)
  }

  /** `href.split("?")[0]`: everything before the first question mark. */
  function BeforeQuery(href: string): (path: string)
    ensures '?' !in path
    ensures StartsWith(href, path)
    ensures |path| < |href| ==> href[|path|] == '?'
  {
    var k := QueryIndex(href, 0);
    assert forall i :: 0 <= i < k ==> href[..k][i] == href[i];
    href[..k]
  }

  /** `isActive(href)` for the current `pathname`, in both the bottom bar and the sidebar. */
  function IsActive(pathname: string, href: string): (active: bool)
    ensures href == "/" ==> (active <==> pathname == "/")
    ensures href != "/" ==> (active <==> StartsWith(pathname, BeforeQuery(href)))
  {
    if href == "/" then pathname == "/"
    else |BeforeQuery(href)| <= |pathname| && pathname[..|BeforeQuery(href)|] == BeforeQuery(href)
  }

  datatype NavEntry = NavEntry(href: string, caption: string)

  const HomePath := "/"
  const PrayersPath := "/prayers"
  const TopicsPath := "/prayer-topics"
  const SettingsPath := "/settings"
  const AnsweredHref := "/prayer-topics?status=ANSWERED"

  /** `leftNavItems` then `rightNavItems`: home, prayers, answered topics, settings. */
  const BottomNavItems: seq<NavEntry> := [
    NavEntry(HomePath, "\U{D648}"),
    NavEntry(PrayersPath, "\U{AE30}\U{B3C4}\U{BB38}"),
    NavEntry(AnsweredHref, "\U{C751}\U{B2F5}"),
    NavEntry(SettingsPath, "\U{C124}\U{C815}")
  ]

  /** The sidebar's entries: home, prayer topics, prayers, settings. */
  const SidebarItems: seq<NavEntry> := [
    NavEntry(HomePath, "\U{D648}"),
    NavEntry(TopicsPath, "\U{AE30}\U{B3C4}\U{C81C}\U{BAA9}"),
    NavEntry(PrayersPath, "\U{AE30}\U{B3C4}\U{BB38}"),
    NavEntry(SettingsPath, "\U{C124}\U{C815}")
  ]

  // ---------------------------------------------------------------------
  // Properties

  /** The path of an `href` is the part before the question mark at `k`, when there is no earlier one. */
  lemma BeforeQueryAt(href: string, k: nat)
    requires k < |href| && href[k] == '?' && '?' !in href[..k]
    ensures BeforeQuery(href) == href[..k]
  {
  }

  /** An `href` without a query string is its own path. */
  lemma BeforeQueryNoQuery(href: string)
    requires '?' !in href
    ensures BeforeQuery(href) == href
  {
  }

  /** Two prefixes of the same pathname agree wherever both are defined. */
  lemma PrefixesAgree(pathname: string, a: string, b: string, k: nat)
    requires StartsWith(pathname, a) && StartsWith(pathname, b)
    requires k < |a| && k < |b|
    ensures a[k] == b[k]
  {
    assert a[k] == pathname[..|a|][k] == pathname[k] == pathname[..|b|][k];
  }

  /** The answered-prayers tab matches against the prayer-topic path. */
  lemma AnsweredTabPath()
    ensures BeforeQuery(AnsweredHref) == TopicsPath
  {
    var answered := AnsweredHref;
    assert answered[14] == '?' && answered[..14] == TopicsPath;
    BeforeQueryAt(answered, 14);
  }

  /** The answered-prayers tab is lit on exactly the pages that light the sidebar's prayer-topic entry. */
  lemma AnsweredTabFollowsTopics(pathname: string)
    ensures IsActive(pathname, AnsweredHref) == IsActive(pathname, TopicsPath)
  {
    AnsweredTabPath();
    BeforeQueryNoQuery(TopicsPath);
  }

  /** Pages below an entry keep it lit: a prayer's own page lights the prayers entry, a settings sub-page the settings entry. */
  lemma SubPagesStayActive(id: string)
    ensures IsActive(PrayersPath + "/" + id, PrayersPath)
    ensures IsActive(SettingsPath + "/" + id, SettingsPath)
    ensures IsActive(TopicsPath + "/" + id, AnsweredHref)
    ensures !IsActive(PrayersPath + "/" + id, HomePath)
  {
    AnsweredTabPath();
    BeforeQueryNoQuery(PrayersPath);
    BeforeQueryNoQuery(SettingsPath);
    assert (PrayersPath + "/" + id)[..|PrayersPath|] == PrayersPath;
    assert (SettingsPath + "/" + id)[..|SettingsPath|] == SettingsPath;
    assert (TopicsPath + "/" + id)[..|TopicsPath|] == TopicsPath;
  }

  /** Two distinct non-root entry paths, neither a prefix of the other, are never lit together. */
  lemma NotBothActive(pathname: string, a: string, b: string, k: nat)
    requires '?' !in a && '?' !in b && a != HomePath && b != HomePath
    requires k < |a| && k < |b| && a[k] != b[k]
    ensures !(IsActive(pathname, a) && IsActive(pathname, b))
  {
    BeforeQueryNoQuery(a);
    BeforeQueryNoQuery(b);
    if IsActive(pathname, a) && IsActive(pathname, b) {
      PrefixesAgree(pathname, a, b, k);
    }
  }

  /** The four sections' entries exclude each other: no pathname lights two of them. */
  lemma SectionsExclusive(pathname: string)
    ensures !(IsActive(pathname, HomePath) && IsActive(pathname, PrayersPath))
    ensures !(IsActive(pathname, HomePath) && IsActive(pathname, TopicsPath))
    ensures !(IsActive(pathname, HomePath) && IsActive(pathname, SettingsPath))
    ensures !(IsActive(pathname, PrayersPath) && IsActive(pathname, TopicsPath))
    ensures !(IsActive(pathname, PrayersPath) && IsActive(pathname, SettingsPath))
    ensures !(IsActive(pathname, TopicsPath) && IsActive(pathname, SettingsPath))
  {
    var prayers, topics, settings := PrayersPath, TopicsPath, SettingsPath;
    BeforeQueryNoQuery(prayers);
    BeforeQueryNoQuery(topics);
    BeforeQueryNoQuery(settings);
    assert prayers[7] != topics[7] && prayers[1] != settings[1] && topics[1] != settings[1];
    NotBothActive(pathname, prayers, topics, 7);
    NotBothActive(pathname, prayers, settings, 1);
    NotBothActive(pathname, topics, settings, 1);
  }

  /** On any pathname at most one entry of the bottom bar is lit. */
  lemma BottomNavAtMostOneActive(pathname: string)
    ensures forall i, j :: 0 <= i < j < |BottomNavItems| ==>
              !(IsActive(pathname, BottomNavItems[i].href) && IsActive(pathname, BottomNavItems[j].href))
  {
    SectionsExclusive(pathname);
    AnsweredTabFollowsTopics(pathname);
  }

  /** On any pathname at most one entry of the sidebar is lit. */
  lemma SidebarAtMostOneActive(pathname: string)
    ensures forall i, j :: 0 <= i < j < |SidebarItems| ==>
              !(IsActive(pathname, SidebarItems[i].href) && IsActive(pathname, SidebarItems[j].href))
  {
    SectionsExclusive(pathname);
  }
}
