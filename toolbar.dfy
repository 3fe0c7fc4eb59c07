/**
 * The page toolbar's avatar menu. Each entry's menu key packs the entry's
 * own key and its target path as `key + "***" + path`; a click splits the
 * key on `"***"` and either logs out (key `"LOGOUT"`) or navigates to the
 * path.
 */
module Toolbar {
  import opened Common

  const Separator: string := "***"
  const LogoutKey: string := "LOGOUT"
  const LoginPath: string := "/login"

  predicate OccursAt(s: string, i: nat)
  {
    i + |Separator| <= |s| && s[i..i + |Separator|] == Separator
  }

  predicate ContainsSeparator(s: string)
  {
    exists i: nat :: i < |s| && OccursAt(s, i)
  }

  /** The first occurrence of the separator at or after `from`. */
  function IndexOf(s: string, from: nat): (r: Option<nat>)
    ensures r.Some? ==> from <= r.value && OccursAt(s, r.value) && forall i: nat :: from <= i < r.value ==> !OccursAt(s, i)
    ensures r.None? ==> forall i: nat :: from <= i ==> !OccursAt(s, i)
    decreases |s| - from
  {
    if from + |Separator| > |s| then None
    else if OccursAt(s, from) then Some(from)
    else IndexOf(s, from + 1)
  }

  /** `s.split("***")`: the pieces between non-overlapping separators, scanned from the left. */
  function Split(s: string): (parts: seq<string>)
    ensures |parts| >= 1
    ensures !ContainsSeparator(s) ==> parts == [s]
    decreases |s|
  {
    match IndexOf(s, 0)
    case None => [s]
    case Some(i) => [s[..i]] + Split(s[i + |Separator|..])
  }

  /** `parts.join("***")`. */
  function Join(parts: seq<string>): (s: string)
    requires |parts| >= 1
    ensures |s| >= |parts[0]| && s[..|parts[0]|] == parts[0]
  {
    if |parts| == 1 then parts[0] else parts[0] + Separator + Join(parts[1..])
  }

  /** Splitting loses nothing: joining the pieces gives the string back. */
  lemma {:induction false} JoinSplit(s: string)
    ensures Join(Split(s)) == s
    decreases |s|
  {
    match IndexOf(s, 0)
    case None =>
    case Some(i) =>
      var rest := s[i + |Separator|..];
      JoinSplit(rest);
      assert Split(s)[1..] == Split(rest);
      assert s == s[..i] + Separator + rest;
  }

  /** A split menu key: `code[0]` and `code[1]`, `None` for `undefined` when there is no separator. */
  datatype MenuCode = MenuCode(key: string, path: Option<string>)

  /** The menu key of an avatar entry. */
  function Encode(key: string, path: string): (e: string)
    ensures |e| == |key| + |Separator| + |path| && OccursAt(e, |key|)
  {
    key + Separator + path
  }

  function Decode(e: string): (code: MenuCode)
    ensures code.key == Split(e)[0]
    ensures code.path.Some? <==> ContainsSeparator(e)
    ensures code.path.Some? ==> |Split(e)| >= 2 && code.path.value == Split(e)[1]
  {
    var parts := Split(e);
    if |parts| >= 2 then
      MenuCode(parts[0], Some(parts[1]))
    else
      assert IndexOf(e, 0).None?;
      MenuCode(parts[0], None)
  }

  /** A key that ends in `'*'` would let the separator start inside it. */
  predicate EndsInStar(key: string)
  {
    |key| > 0 && key[|key| - 1] == '*'
  }

  /**
   * When neither part holds the separator and the key does not end in `'*'`,
   * decoding an entry's menu key gives back its key and its path.
   */
  lemma {:induction false} DecodeEncode(key: string, path: string)
    requires !ContainsSeparator(key) && !EndsInStar(key) && !ContainsSeparator(path)
    ensures Decode(Encode(key, path)) == MenuCode(key, Some(path))
  {
    var e := Encode(key, path);
    forall i: nat | i < |key|
      ensures !OccursAt(e, i)
    {
      if i + |Separator| <= |key| {
        assert key[i..i + |Separator|] == e[i..i + |Separator|];
        assert !OccursAt(key, i);
      } else {
        assert e[i..i + |Separator|][|key| - 1 - i] == key[|key| - 1] != '*';
      }
    }
    assert IndexOf(e, 0) == Some(|key|);
    assert e[..|key|] == key;
    assert e[|key| + |Separator|..] == path;
    assert Split(path) == [path];
  }

  // The key condition is needed: key "a*" with path "/x" decodes as key "a" and path "*/x".
  lemma KeyEndingInStarMisdecodes()
    ensures Decode(Encode("a*", "/x")) == MenuCode("a", Some("*/x"))
  {
    var e := Encode("a*", "/x");
    assert e == "a****/x";
    assert e[0..3][0] == 'a';
    assert OccursAt(e, 1);
    assert IndexOf(e, 0) == Some(1);
    assert e[4..] == "*/x";
    assert "*/x"[0..3][1] == '/';
    assert IndexOf("*/x", 0) == None;
  }

  /** The built-in logout entry's key holds no separator and decodes to key `"LOGOUT"`. */
  lemma LogoutEntryDecodes()
    ensures !ContainsSeparator(LogoutKey)
    ensures Decode(LogoutKey) == MenuCode(LogoutKey, None)
  {
    forall i: nat
      ensures !OccursAt(LogoutKey, i)
    {
      if i + |Separator| <= |LogoutKey| {
        assert LogoutKey[i] != '*';
      }
    }
  }

  /** The two cookies logout removes, and any others the browser holds. */
  datatype Cookie = TokenCookie | UserCookie | OtherCookie(name: string)

  /** An entry of the avatar menu; the icon is named rather than rendered. */
  datatype AvatarItem = AvatarItem(key: string, path: string, title: string, icon: string, sidebarIndex: int)

  /**
   * The state the toolbar acts on: the cookie jar, the router's history
   * (`None` for a push of `undefined`), and the application's page title,
   * page icon and selected sidebar index.
   */
  class ToolbarState {
    var cookies: set<Cookie>
    var history: seq<Option<string>>
    var currentPageTitle: string
    var currentPageIcon: string
    var sidebarSelectedIndex: int

    constructor (cookies: set<Cookie>, title: string, icon: string, sidebarIndex: int)
      ensures this.cookies == cookies && history == []
      ensures currentPageTitle == title && currentPageIcon == icon && sidebarSelectedIndex == sidebarIndex
    {
      this.cookies := cookies;
      history := [];
      currentPageTitle, currentPageIcon, sidebarSelectedIndex := title, icon, sidebarIndex;
    }

    method Logout()
      modifies this
      ensures cookies == old(cookies) - {TokenCookie, UserCookie}
      ensures history == old(history) + [Some(LoginPath)]
      ensures currentPageTitle == old(currentPageTitle) && currentPageIcon == old(currentPageIcon)
      ensures sidebarSelectedIndex == old(sidebarSelectedIndex)
    {
      cookies := cookies - {TokenCookie};
      cookies := cookies - {UserCookie};
      history := history + [Some(LoginPath)];
    }

    /** A click on the menu entry whose menu key is `e`. */
    method HandleSelectMenuItem(e: string)
      modifies this
      ensures Decode(e).key == LogoutKey ==>
                cookies == old(cookies) - {TokenCookie, UserCookie} && history == old(history) + [Some(LoginPath)]
      ensures Decode(e).key != LogoutKey ==>
                cookies == old(cookies) && history == old(history) + [Decode(e).path]
      ensures currentPageTitle == old(currentPageTitle) && currentPageIcon == old(currentPageIcon)
      ensures sidebarSelectedIndex == old(sidebarSelectedIndex)
    {
      var code := Decode(e);
      if code.key == LogoutKey {
        Logout();
        return;
      }
      history := history + [code.path];
    }

    /**
     * A click on an avatar entry: the entry's own handler sets the page
     * title, icon and sidebar index, then the menu's handler dispatches on
     * its menu key.
     */
    method ClickAvatarItem(item: AvatarItem)
      modifies this
      ensures currentPageTitle == item.title && currentPageIcon == item.icon
      ensures sidebarSelectedIndex == item.sidebarIndex
      ensures var code := Decode(Encode(item.key, item.path));
              && (code.key == LogoutKey ==>
                    cookies == old(cookies) - {TokenCookie, UserCookie} && history == old(history) + [Some(LoginPath)])
              && (code.key != LogoutKey ==> cookies == old(cookies) && history == old(history) + [code.path])
    {
      currentPageTitle, currentPageIcon := item.title, item.icon;
      sidebarSelectedIndex := item.sidebarIndex;
      HandleSelectMenuItem(Encode(item.key, item.path));
    }

    /** A click on the built-in logout entry. */
    method ClickLogoutEntry()
      modifies this
      ensures cookies == old(cookies) - {TokenCookie, UserCookie}
      ensures history == old(history) + [Some(LoginPath)]
      ensures currentPageTitle == old(currentPageTitle) && currentPageIcon == old(currentPageIcon)
      ensures sidebarSelectedIndex == old(sidebarSelectedIndex)
    {
      LogoutEntryDecodes();
      HandleSelectMenuItem(LogoutKey);
    }
  }

  /**
   * An avatar entry whose key and path are well formed navigates to its own
   * path, unless its key is `"LOGOUT"`.
   */
  lemma AvatarItemNavigatesToItsPath(item: AvatarItem)
    requires !ContainsSeparator(item.key) && !EndsInStar(item.key) && !ContainsSeparator(item.path)
    ensures Decode(Encode(item.key, item.path)).key == item.key
    ensures Decode(Encode(item.key, item.path)).path == Some(item.path)
  {
    DecodeEncode(item.key, item.path);
  }
}
