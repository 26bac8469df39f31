/** The bookmarks widget: a user-editable list of titled links, each with a
    favicon address, and the dialog through which new ones are added. */
module Bookmarks {
  import opened Options
  import opened Text
  import opened Lists

  datatype Bookmark = Bookmark(id: string, title: string, url: string, favicon: string)

  /** The two fields of the add dialog. */
  datatype Form = Form(title: string, url: string)

  datatype BookmarkWidget = BookmarkWidget(bookmarks: seq<Bookmark>, form: Form, dialogOpen: bool)

  function BookmarkId(b: Bookmark): string {
    b.id
  }

  /** The list shown before the user has saved any. */
  function Defaults(): (bs: seq<Bookmark>)
    ensures |bs| == 3
    ensures forall i, j :: 0 <= i < j < |bs| ==> bs[i].id != bs[j].id
    ensures forall i :: 0 <= i < |bs| ==> StartsWith(bs[i].url, "https://")
  {
    var bs := [
      Bookmark("1", "Google", "https://google.com", "https://www.google.com/favicon.ico"),
      Bookmark("2", "GitHub", "https://github.com", "https://github.com/favicon.ico"),
      Bookmark("3", "YouTube", "https://youtube.com", "https://www.youtube.com/favicon.ico")
    ];
    assert StartsWith(bs[0].url, "https://");
    assert StartsWith(bs[1].url, "https://");
    assert StartsWith(bs[2].url, "https://");
    bs
  }

  /** On mount: the stored list if there is one (even an empty one),
      otherwise the defaults; the dialog is closed and empty. */
  function Load(saved: Option<seq<Bookmark>>): (w: BookmarkWidget)
    ensures saved.Some? ==> w.bookmarks == saved.value
    ensures saved.None? ==> w.bookmarks == Defaults()
    ensures w.form == Form("", "") && !w.dialogOpen
  {
    BookmarkWidget(saved.GetOr(Defaults()), Form("", ""), false)
  }

  predicate HasScheme(url: string) {
    StartsWith(url, "http://") || StartsWith(url, "https://")
  }

  /** Gives a typed address a scheme: `https://` in front unless it already
      starts with `http://` or `https://`. */
  function NormaliseUrl(url: string): (r: string)
    ensures HasScheme(r)
    ensures HasScheme(url) ==> r == url
    ensures !HasScheme(url) ==> r == "https://" + url
  {
    if HasScheme(url) then url
    else
      StartsWithPrefix("https://", url);
      "https://" + url
  }

  /** Normalising an address twice is normalising it once. */
  lemma NormaliseIdempotent(url: string)
    ensures NormaliseUrl(NormaliseUrl(url)) == NormaliseUrl(url)
  {
  }

  /** The favicon service address for a bookmark. `host` is the browser's
      URL parser: `None` when it throws, in which case a fixed domain is used. */
  function FaviconUrl(url: string, host: string -> Option<string>): (r: string)
    ensures StartsWith(r, "https://www.google.com/s2/favicons?domain=")
    ensures host(url).Some? ==> r == "https://www.google.com/s2/favicons?domain=" + host(url).value + "&sz=32"
    ensures host(url).None? ==> r == "https://www.google.com/s2/favicons?domain=example.com&sz=32"
  {
    var domain := host(url).GetOr("example.com");
    var r := "https://www.google.com/s2/favicons?domain=" + domain + "&sz=32";
    assert r == "https://www.google.com/s2/favicons?domain=" + (domain + "&sz=32");
    StartsWithPrefix("https://www.google.com/s2/favicons?domain=", domain + "&sz=32");
    r
  }

  /** The dialog's add button. An empty title or address (white space alone
      is accepted) is refused and nothing changes. Otherwise one bookmark
      with a normalised address goes at the end, the earlier ones stay as
      they were, the form is emptied and the dialog closes. */
  function Add(w: BookmarkWidget, now: nat, host: string -> Option<string>): (r: BookmarkWidget)
    ensures w.form.title == "" || w.form.url == "" ==> r == w
    ensures w.form.title != "" && w.form.url != "" ==>
      && |r.bookmarks| == |w.bookmarks| + 1
      && r.bookmarks[..|w.bookmarks|] == w.bookmarks
      && r.bookmarks[|w.bookmarks|].id == NatToString(now)
      && r.bookmarks[|w.bookmarks|].title == w.form.title
      && r.bookmarks[|w.bookmarks|].url == NormaliseUrl(w.form.url)
      && r.bookmarks[|w.bookmarks|].favicon == FaviconUrl(NormaliseUrl(w.form.url), host)
      && r.form == Form("", "") && !r.dialogOpen
  {
    if w.form.title == "" || w.form.url == "" then w
    else
      var url := NormaliseUrl(w.form.url);
      var b := Bookmark(NatToString(now), w.form.title, url, FaviconUrl(url, host));
      BookmarkWidget(w.bookmarks + [b], Form("", ""), false)
  }

  /** The remove button: every bookmark with the id goes, the rest stay. */
  function Remove(bs: seq<Bookmark>, id: string): (r: seq<Bookmark>)
    ensures forall i :: 0 <= i < |r| ==> r[i].id != id && r[i] in bs
    ensures forall i :: 0 <= i < |bs| && bs[i].id != id ==> bs[i] in r
  {
    RemoveKey(bs, BookmarkId, id)
  }

  /** Removal keeps the remaining bookmarks in order, and removing an id no
      bookmark carries changes nothing. */
  lemma RemoveKeepsOrder(a: seq<Bookmark>, b: seq<Bookmark>, id: string)
    ensures Remove(a + b, id) == Remove(a, id) + Remove(b, id)
    ensures (forall i :: 0 <= i < |a| ==> a[i].id != id) ==> Remove(a, id) == a
  {
    RemoveKeyAppend(a, b, BookmarkId, id);
    if forall i :: 0 <= i < |a| ==> a[i].id != id {
      RemoveAbsentKey(a, BookmarkId, id);
    }
  }

  /** Removing a just-added bookmark, whose id was new, restores the list. */
  lemma AddThenRemove(w: BookmarkWidget, now: nat, host: string -> Option<string>)
    requires w.form.title != "" && w.form.url != ""
    requires forall i :: 0 <= i < |w.bookmarks| ==> w.bookmarks[i].id != NatToString(now)
    ensures Remove(Add(w, now, host).bookmarks, NatToString(now)) == w.bookmarks
  {
    var r := Add(w, now, host).bookmarks;
    var added := r[|w.bookmarks|];
    assert r == w.bookmarks + [added];
    RemoveKeyAppend(w.bookmarks, [added], BookmarkId, NatToString(now));
    RemoveAbsentKey(w.bookmarks, BookmarkId, NatToString(now));
  }
}
