/** The quick-links widget: a grid of named shortcuts with an icon each, and
    the dialog through which new ones are added. */
module QuickLinks {
  import opened Options
  import opened Text
  import opened Lists

  datatype QuickLink = QuickLink(id: string, name: string, url: string, icon: string)

  /** The three fields of the add dialog. */
  datatype Form = Form(name: string, url: string, icon: string)

  datatype QuickLinksWidget = QuickLinksWidget(links: seq<QuickLink>, form: Form, editing: bool)

  /** The icon a link gets when none is typed. */
  const DefaultIcon: string := "\U{1F517}"

  function LinkId(l: QuickLink): string {
    l.id
  }

  /** The links shown before the user has saved any. */
  function Defaults(): (ls: seq<QuickLink>)
    ensures |ls| == 4
    ensures forall i, j :: 0 <= i < j < |ls| ==> ls[i].id != ls[j].id
  {
    [
      QuickLink("1", "Google", "https://google.com", "\U{1F50D}"),
      QuickLink("2", "GitHub", "https://github.com", "\U{1F4BB}"),
      QuickLink("3", "YouTube", "https://youtube.com", "\U{1F4FA}"),
      QuickLink("4", "Twitter", "https://twitter.com", "\U{1F426}")
    ]
  }

  /** The mount effect: the stored list if there is one, otherwise the
      defaults; the dialog is closed and empty. */
  function Load(saved: Option<seq<QuickLink>>): (w: QuickLinksWidget)
    ensures saved.Some? ==> w.links == saved.value
    ensures saved.None? ==> w.links == Defaults()
    ensures w.form == Form("", "", "") && !w.editing
  {
    QuickLinksWidget(saved.GetOr(Defaults()), Form("", "", ""), false)
  }

  /** The address stored for a typed one: kept when it starts with `http`
      (which admits any host whose name starts so), else given `https://`. */
  function LinkUrl(url: string): (r: string)
    ensures StartsWith(r, "http")
    ensures StartsWith(url, "http") ==> r == url
    ensures !StartsWith(url, "http") ==> r == "https://" + url
  {
    if StartsWith(url, "http") then url
    else
      assert ("https://" + url)[..4] == "http";
      "https://" + url
  }

  /** Giving an address a scheme twice is doing it once. */
  lemma LinkUrlIdempotent(url: string)
    ensures LinkUrl(LinkUrl(url)) == LinkUrl(url)
  {
  }

  /** The icon stored for a typed one: the typed one, or the link symbol
      when the field is empty. */
  function LinkIcon(icon: string): (r: string)
    ensures r != ""
    ensures icon != "" ==> r == icon
    ensures icon == "" ==> r == DefaultIcon
  {
    if icon != "" then icon else DefaultIcon
  }

  /** The dialog's add button. Without both a name and an address nothing
      happens. Otherwise one link goes at the end, the earlier ones stay as
      they were, the form is emptied and the dialog closes. */
  function Add(w: QuickLinksWidget, now: nat): (r: QuickLinksWidget)
    ensures w.form.name == "" || w.form.url == "" ==> r == w
    ensures w.form.name != "" && w.form.url != "" ==>
      && |r.links| == |w.links| + 1
      && r.links[..|w.links|] == w.links
      && r.links[|w.links|] == QuickLink(NatToString(now), w.form.name, LinkUrl(w.form.url), LinkIcon(w.form.icon))
      && r.form == Form("", "", "") && !r.editing
  {
    if w.form.name != "" && w.form.url != "" then
      var link := QuickLink(NatToString(now), w.form.name, LinkUrl(w.form.url), LinkIcon(w.form.icon));
      QuickLinksWidget(w.links + [link], Form("", "", ""), false)
    else w
  }

  /** The remove button: every link with the id goes, the rest stay. */
  function Remove(links: seq<QuickLink>, id: string): (r: seq<QuickLink>)
    ensures forall i :: 0 <= i < |r| ==> r[i].id != id && r[i] in links
    ensures forall i :: 0 <= i < |links| && links[i].id != id ==> links[i] in r
  {
    RemoveKey(links, LinkId, id)
  }

  /** Removal keeps the remaining links in order, and removing an id no link
      carries changes nothing. */
  lemma RemoveKeepsOrder(a: seq<QuickLink>, b: seq<QuickLink>, id: string)
    ensures Remove(a + b, id) == Remove(a, id) + Remove(b, id)
    ensures (forall i :: 0 <= i < |a| ==> a[i].id != id) ==> Remove(a, id) == a
  {
    RemoveKeyAppend(a, b, LinkId, id);
    if forall i :: 0 <= i < |a| ==> a[i].id != id {
      RemoveAbsentKey(a, LinkId, id);
    }
  }

  /** Removing a link just added, under its fresh id, restores the list. */
  lemma AddThenRemove(w: QuickLinksWidget, now: nat)
    requires w.form.name != "" && w.form.url != ""
    requires forall i :: 0 <= i < |w.links| ==> w.links[i].id != NatToString(now)
    ensures Remove(Add(w, now).links, NatToString(now)) == w.links
  {
    var r := Add(w, now).links;
    var added := r[|w.links|];
    assert r == w.links + [added];
    RemoveKeyAppend(w.links, [added], LinkId, NatToString(now));
    RemoveAbsentKey(w.links, LinkId, NatToString(now));
  }
}
