/**
 * The main navigation bar: which links it shows, which one is highlighted
 * for the current path, and whether it offers the profile menu or the
 * login button.
 */
module Navigation {
  const Home := "/"
  const Blogs := "/blog"
  const ContactPage := "/contact"
  const Dashboard := "/blog/manage"

  /** `pathname.startsWith(prefix)`. */
  predicate StartsWith(s: string, prefix: string) {
    |prefix| <= |s| && s[..|prefix|] == prefix
  }

  /** `isActive(path)`: home and the blog index match only exactly; every
      other link matches any path that begins with it, character by
      character. */
  predicate IsActive(path: string, pathname: string) {
    if path == Home then pathname == Home
    else if path == Blogs then pathname == Blogs
    else StartsWith(pathname, path)
  }

  /** The dashboard link and the profile menu wait until the auth state has
      loaded and then need a signed-in user. */
  predicate SignedInShown(isAuthenticated: bool, loading: bool) {
    !loading && isAuthenticated
  }

  /** The links in the bar, in order. */
  function Links(isAuthenticated: bool, loading: bool): (r: seq<string>)
    ensures |r| == if SignedInShown(isAuthenticated, loading) then 4 else 3
    ensures r[..3] == [Home, Blogs, ContactPage]
    ensures Dashboard in r <==> SignedInShown(isAuthenticated, loading)
  {
    assert Dashboard[1] != Home[0] && Dashboard != Blogs && Dashboard[1] != ContactPage[1];
    [Home, Blogs, ContactPage] + (if SignedInShown(isAuthenticated, loading) then [Dashboard] else [])
  }

  /** The highlighted links for a path. */
  function Highlighted(pathname: string, isAuthenticated: bool, loading: bool): (r: seq<string>)
    ensures forall l :: l in r <==> l in Links(isAuthenticated, loading) && IsActive(l, pathname)
  {
    Keep(Links(isAuthenticated, loading), pathname)
  }

  /** The links of `links` active for `pathname`, in order. */
  function Keep(links: seq<string>, pathname: string): (r: seq<string>)
    ensures forall l :: l in r <==> l in links && IsActive(l, pathname)
  {
    if links == [] then []
    else (if IsActive(links[0], pathname) then [links[0]] else []) + Keep(links[1..], pathname)
  }

  /** No two of the listed links are active for the same path. */
  predicate Exclusive(links: seq<string>, pathname: string) {
    forall i, j :: 0 <= i < j < |links| && IsActive(links[i], pathname) ==> !IsActive(links[j], pathname)
  }

  lemma {:induction false} NoneActiveKeepsNothing(links: seq<string>, pathname: string)
    requires forall i :: 0 <= i < |links| ==> !IsActive(links[i], pathname)
    ensures Keep(links, pathname) == []
  {
    if links != [] {
      NoneActiveKeepsNothing(links[1..], pathname);
    }
  }

  lemma {:induction false} ExclusiveKeepsAtMostOne(links: seq<string>, pathname: string)
    requires Exclusive(links, pathname)
    ensures |Keep(links, pathname)| <= 1
  {
    if links != [] {
      if IsActive(links[0], pathname) {
        forall j | 0 <= j < |links[1..]|
          ensures !IsActive(links[1..][j], pathname)
        {
          assert links[1..][j] == links[j + 1];
        }
        NoneActiveKeepsNothing(links[1..], pathname);
      } else {
        ExclusiveKeepsAtMostOne(links[1..], pathname);
      }
    }
  }

  /** The four link paths are never active together. */
  lemma LinksExclusive(pathname: string)
    ensures Exclusive([Home, Blogs, ContactPage, Dashboard], pathname)
    ensures Exclusive([Home, Blogs, ContactPage], pathname)
  {
    assert IsActive(ContactPage, pathname) ==> pathname[1] == 'c';
    assert IsActive(Dashboard, pathname) ==> pathname[1] == 'b' && |pathname| >= 12;
  }

  /** Whatever the path, at most one link is highlighted. */
  lemma AtMostOneHighlighted(pathname: string, isAuthenticated: bool, loading: bool)
    ensures |Highlighted(pathname, isAuthenticated, loading)| <= 1
  {
    var links := Links(isAuthenticated, loading);
    LinksExclusive(pathname);
    if SignedInShown(isAuthenticated, loading) {
      assert links == [Home, Blogs, ContactPage, Dashboard];
    } else {
      assert links == [Home, Blogs, ContactPage];
    }
    ExclusiveKeepsAtMostOne(links, pathname);
  }

  /** On the dashboard, the dashboard link is the one highlighted and the
      blog index is not. */
  lemma DashboardHighlightsItself()
    ensures IsActive(Dashboard, Dashboard) && !IsActive(Blogs, Dashboard)
    ensures Highlighted(Dashboard, true, false) == [Dashboard]
  {
    var r := Highlighted(Dashboard, true, false);
    AtMostOneHighlighted(Dashboard, true, false);
    assert Dashboard in r;
  }

  /** A blog post's own page highlights nothing, not even the blog index,
      unless its slug begins with `manage`. */
  lemma PostPageHighlightsNothing(slug: string, isAuthenticated: bool, loading: bool)
    requires !StartsWith(Blogs + "/" + slug, Dashboard)
    ensures Highlighted(Blogs + "/" + slug, isAuthenticated, loading) == []
  {
    var p := Blogs + "/" + slug;
    var r := Highlighted(p, isAuthenticated, loading);
    assert p[1] == 'b' && |p| > |Blogs|;
    NoneActiveKeepsNothing(Links(isAuthenticated, loading), p);
  }

  /** The prefix test is not aware of path segments: a path that merely
      begins with `/contact` highlights the contact link. */
  lemma PrefixIgnoresSegments()
    ensures IsActive(ContactPage, "/contactless")
  {
  }

  /** The right-hand side offers the profile menu exactly when the dashboard
      link is shown, and the login button otherwise. */
  datatype CornerView = ProfileMenu | LoginButton

  function Corner(isAuthenticated: bool, loading: bool): (c: CornerView)
    ensures c == ProfileMenu <==> Dashboard in Links(isAuthenticated, loading)
  {
    if SignedInShown(isAuthenticated, loading) then ProfileMenu else LoginButton
  }
}
