/** The navigation sidebar: its class-name joiner, which entries are
    highlighted for the current path, the width and content derived from the
    collapse and hover flags, and the events that change those flags. */
module Sidebar {
  import opened JsText

  // ---------------------------------------------------------------- cn

  /** An argument of `cn`: a class string, `undefined`, `null` or a boolean
      (what `cond && "class"` yields when `cond` is false). */
  datatype ClassArg = Str(s: string) | Undefined | Null | Bool(b: bool)

  /** `filter(Boolean)`: the empty string, `undefined`, `null` and `false`
      are dropped. */
  predicate Truthy(a: ClassArg) {
    match a
    case Str(s) => s != []
    case Bool(b) => b
    case _ => false
  }

  /** How `join` writes a kept argument. */
  function Text(a: ClassArg): (t: string)
    requires Truthy(a)
    ensures t != []
  {
    match a
    case Str(s) => s
    case Bool(_) => "true"
  }

  /** The texts of the truthy arguments, in order. */
  function Kept(args: seq<ClassArg>): (r: seq<string>)
    ensures |r| <= |args|
    ensures forall i :: 0 <= i < |r| ==> r[i] != []
  {
    if args == [] then []
    else (if Truthy(args[0]) then [Text(args[0])] else []) + Kept(args[1..])
  }

  /** `cn(...classes)`: empty exactly when no argument is truthy. */
  function Cn(args: seq<ClassArg>): (r: string)
    ensures r == [] <==> forall i :: 0 <= i < |args| ==> !Truthy(args[i])
  {
    KeptEmptyIff(args);
    JoinEmptyIff(Kept(args), " ");
    Join(Kept(args), " ")
  }

  /** Nothing is kept exactly when every argument is falsy. */
  lemma {:induction false} KeptEmptyIff(args: seq<ClassArg>)
    ensures Kept(args) == [] <==> forall i :: 0 <= i < |args| ==> !Truthy(args[i])
  {
    if args != [] {
      KeptEmptyIff(args[1..]);
      assert forall i :: 1 <= i < |args| ==> args[i] == args[1..][i - 1];
    }
  }

  lemma {:induction false} KeptAppend(x: seq<ClassArg>, y: seq<ClassArg>)
    ensures Kept(x + y) == Kept(x) + Kept(y)
  {
    if x == [] {
      assert x + y == y;
    } else {
      assert (x + y)[1..] == x[1..] + y;
      KeptAppend(x[1..], y);
    }
  }

  /** `cn` of a single argument is its text, or nothing if it is falsy. */
  lemma CnSingle(a: ClassArg)
    ensures Truthy(a) ==> Cn([a]) == Text(a)
    ensures !Truthy(a) ==> Cn([a]) == []
  {
    assert [a][1..] == [];
  }

  /** `cn` of two argument lists is the two results joined by one space,
      where neither is empty. So `cn` keeps the truthy arguments in order,
      one space apart, and nothing else. */
  lemma CnAppend(x: seq<ClassArg>, y: seq<ClassArg>)
    ensures Cn(x + y) == (if Cn(x) == [] then Cn(y) else if Cn(y) == [] then Cn(x) else Cn(x) + " " + Cn(y))
  {
    KeptAppend(x, y);
    JoinEmptyIff(Kept(x), " ");
    JoinEmptyIff(Kept(y), " ");
    if Kept(x) == [] {
      assert Kept(x + y) == Kept(y);
    } else if Kept(y) == [] {
      assert Kept(x + y) == Kept(x);
    } else {
      JoinAppend(Kept(x), Kept(y), " ");
    }
  }

  /** A falsy argument anywhere changes nothing. */
  lemma CnDropsFalsy(x: seq<ClassArg>, a: ClassArg, y: seq<ClassArg>)
    requires !Truthy(a)
    ensures Cn(x + [a] + y) == Cn(x + y)
  {
    KeptAppend(x + [a], y);
    KeptAppend(x, [a]);
    KeptAppend(x, y);
    assert [a][1..] == [];
    assert Kept([a]) == [];
    assert Kept(x) + [] == Kept(x);
  }

  // ---------------------------------------------------------------- active route

  /** `pathname === href || pathname.startsWith(href + '/')`: an entry can
      only be active when its path begins the current one. */
  predicate IsActive(pathname: string, href: string)
    ensures IsActive(pathname, href) ==> |href| <= |pathname| && pathname[..|href|] == href
  {
    assert StartsWith(pathname, href + "/") ==> pathname[..|href|] == (href + "/")[..|href|];
    pathname == href || StartsWith(pathname, href + "/")
  }

  /** A page below an entry's path highlights the entry. */
  lemma ActiveBelow(href: string, rest: string)
    ensures IsActive(href + "/" + rest, href)
  {
    assert (href + "/" + rest)[..|href| + 1] == href + "/";
  }

  /** A path that merely extends the entry's path without a slash does not
      highlight it: "/landing" is not under "/land". */
  lemma SiblingNotActive(href: string, rest: string)
    requires rest != [] && rest[0] != '/'
    ensures !IsActive(href + rest, href)
  {
    assert (href + rest)[|href|] == rest[0];
    assert (href + "/")[|href|] == '/';
  }

  /** "/land/new" highlights the Properties entry, "/landing" does not. */
  lemma LandExamples()
    ensures IsActive("/land/new", "/land") && IsActive("/land", "/land")
    ensures !IsActive("/landing", "/land")
  {
    assert "/land/new" == "/land" + "/" + "new";
    ActiveBelow("/land", "new");
    assert "/landing" == "/land" + "ing";
    SiblingNotActive("/land", "ing");
  }

  /** The highlight rule exactly: active iff the path is the entry's path,
      or the entry's path followed by a slash and anything. */
  lemma ActiveIff(pathname: string, href: string)
    ensures IsActive(pathname, href) <==>
      pathname == href || (|pathname| > |href| && pathname[..|href|] == href && pathname[|href|] == '/')
  {
    if |pathname| > |href| && pathname[..|href|] == href && pathname[|href|] == '/' {
      assert pathname[..|href| + 1] == href + "/";
    }
    if StartsWith(pathname, href + "/") {
      assert pathname[..|href|] == (href + "/")[..|href|];
      assert (href + "/")[..|href|] == href;
    }
  }

  /** A path of one segment: a slash and then no other slash. */
  predicate OneSegment(h: string) {
    |h| >= 1 && h[0] == '/' && forall i :: 1 <= i < |h| ==> h[i] != '/'
  }

  /** Two one-segment entries are never highlighted together. */
  lemma OneActiveSegment(pathname: string, a: string, b: string)
    requires OneSegment(a) && OneSegment(b)
    requires IsActive(pathname, a) && IsActive(pathname, b)
    ensures a == b
  {
    ActiveIff(pathname, a);
    ActiveIff(pathname, b);
    if |a| < |b| {
      assert false;
    } else if |b| < |a| {
      assert false;
    }
  }

  /** The hrefs of the main navigation, in order. */
  const NavHrefs: seq<string> := ["/dashboard", "/land", "/documents", "/finances", "/transactions", "/calendar"]

  /** The tools section's one entry. */
  const ToolHrefs: seq<string> := ["/settings"]

  lemma NavHrefsOneSegment()
    ensures forall i :: 0 <= i < |NavHrefs| ==> OneSegment(NavHrefs[i])
    ensures forall i :: 0 <= i < |ToolHrefs| ==> OneSegment(ToolHrefs[i])
  {
  }

  /** Whatever the path, at most one navigation entry is highlighted, and
      only an entry whose path the page is, or lies under. */
  lemma AtMostOneActive(pathname: string, i: int, j: int)
    requires 0 <= i < |NavHrefs| && 0 <= j < |NavHrefs|
    requires IsActive(pathname, NavHrefs[i]) && IsActive(pathname, NavHrefs[j])
    ensures i == j
  {
    NavHrefsOneSegment();
    OneActiveSegment(pathname, NavHrefs[i], NavHrefs[j]);
  }

  // ---------------------------------------------------------------- layout

  /** `collapsed && !isHovered ? 88 : 320`. */
  function EffectiveWidth(collapsed: bool, hovered: bool): (w: int)
    ensures w == 88 || w == 320
  {
    if collapsed && !hovered then 88 else 320
  }

  /** `(!collapsed || isHovered) && !isMobile`. */
  predicate ShowFullContent(collapsed: bool, hovered: bool, mobile: bool) {
    (!collapsed || hovered) && !mobile
  }

  /** The thin edge strip drawn on the collapsed bar. */
  predicate ShowsEdgeStrip(collapsed: bool, hovered: bool) {
    collapsed && !hovered
  }

  /** `window.innerWidth < 768`. */
  predicate IsMobile(windowWidth: int) {
    windowWidth < 768
  }

  /** The bar is narrow exactly when it is collapsed and not hovered, which
      is exactly when the edge strip shows; full content needs the wide bar
      on a desktop window. */
  lemma LayoutRules(collapsed: bool, hovered: bool, windowWidth: int)
    ensures EffectiveWidth(collapsed, hovered) == 88 <==> collapsed && !hovered
    ensures EffectiveWidth(collapsed, hovered) == 88 <==> ShowsEdgeStrip(collapsed, hovered)
    ensures ShowFullContent(collapsed, hovered, IsMobile(windowWidth)) <==>
      EffectiveWidth(collapsed, hovered) == 320 && windowWidth >= 768
  {
  }

  // ---------------------------------------------------------------- state

  /** The component's three flags and the path it was rendered for.

      The hover listeners are attached once, at mount, and only on a
      desktop-wide window, to the element the ref holds then. The desktop
      bar is a component defined inside this one, so every re-render gives
      it a new type and mounts a new element: from the first change of a
      flag or of the path on, the listeners sit on an element that is no
      longer in the page. `listenersLive` records whether they still reach
      the bar. */
  class SidebarState {
    var collapsed: bool
    var hovered: bool
    var mobileOpen: bool
    var pathname: string
    var listenersLive: bool

    constructor(pathname: string, windowWidth: int)
      ensures !collapsed && !hovered && !mobileOpen
      ensures this.pathname == pathname
      ensures listenersLive == !IsMobile(windowWidth)
    {
      collapsed := false;
      hovered := false;
      mobileOpen := false;
      this.pathname := pathname;
      listenersLive := windowWidth >= 768;
    }

    function Width(): (w: int)
      reads this
      ensures w == 88 <==> ShowsEdgeStrip(collapsed, hovered)
    {
      EffectiveWidth(collapsed, hovered)
    }

    /** The chevron button: flips `collapsed`; the re-render detaches the
        hover listeners from the page. */
    method ToggleCollapse()
      modifies this
      ensures collapsed == !old(collapsed) && !listenersLive
      ensures hovered == old(hovered) && mobileOpen == old(mobileOpen) && pathname == old(pathname)
    {
      collapsed := !collapsed;
      listenersLive := false;
    }

    /** The pointer enters the bar: only live listeners set `hovered`, and
        setting it re-renders, which leaves the listeners behind. */
    method MouseEnter()
      modifies this
      ensures hovered == (old(listenersLive) || old(hovered))
      ensures listenersLive == (old(listenersLive) && old(hovered))
      ensures collapsed == old(collapsed) && mobileOpen == old(mobileOpen) && pathname == old(pathname)
    {
      if listenersLive && !hovered {
        hovered := true;
        listenersLive := false;
      }
    }

    /** The pointer leaves the bar: only live listeners clear `hovered`, and
        clearing it re-renders, which leaves the listeners behind. */
    method MouseLeave()
      modifies this
      ensures hovered == (!old(listenersLive) && old(hovered))
      ensures listenersLive == (old(listenersLive) && !old(hovered))
      ensures collapsed == old(collapsed) && mobileOpen == old(mobileOpen) && pathname == old(pathname)
    {
      if listenersLive && hovered {
        hovered := false;
        listenersLive := false;
      }
    }

    /** The document's keydown listener: Escape closes the drawer, any other
        key leaves it. Closing an open drawer re-renders. */
    method KeyDown(key: string)
      modifies this
      ensures mobileOpen == (old(mobileOpen) && key != "Escape")
      ensures listenersLive == (old(listenersLive) && mobileOpen == old(mobileOpen))
      ensures collapsed == old(collapsed) && hovered == old(hovered) && pathname == old(pathname)
    {
      if key == "Escape" && mobileOpen {
        mobileOpen := false;
        listenersLive := false;
      }
    }

    /** A new path re-renders and re-runs the effect keyed on it, which
        closes the drawer; the same path does not. */
    method Navigate(path: string)
      modifies this
      ensures pathname == path
      ensures mobileOpen == (old(mobileOpen) && path == old(pathname))
      ensures listenersLive == (old(listenersLive) && path == old(pathname))
      ensures collapsed == old(collapsed) && hovered == old(hovered)
    {
      if path != pathname {
        pathname := path;
        mobileOpen := false;
        listenersLive := false;
      }
    }

    /** The hamburger button; opening a closed drawer re-renders. */
    method OpenDrawer()
      modifies this
      ensures mobileOpen
      ensures listenersLive == (old(listenersLive) && old(mobileOpen))
      ensures collapsed == old(collapsed) && hovered == old(hovered) && pathname == old(pathname)
    {
      if !mobileOpen {
        mobileOpen := true;
        listenersLive := false;
      }
    }

    /** The overlay and the drawer's close button; closing an open drawer
        re-renders. */
    method CloseDrawer()
      modifies this
      ensures !mobileOpen
      ensures listenersLive == (old(listenersLive) && !old(mobileOpen))
      ensures collapsed == old(collapsed) && hovered == old(hovered) && pathname == old(pathname)
    {
      if mobileOpen {
        mobileOpen := false;
        listenersLive := false;
      }
    }
  }

  /** Hover-to-expand as the page has it: once the bar is collapsed, the
      pointer entering it no longer widens it. */
  method CollapsedBarIgnoresHover(pathname: string, windowWidth: int) returns (width: int)
    ensures width == 88
  {
    var bar := new SidebarState(pathname, windowWidth);
    bar.ToggleCollapse();
    bar.MouseEnter();
    width := bar.Width();
  }

  /** On a desktop window the first hover sticks: the pointer leaving the
      bar afterwards does not clear it. */
  method HoverSticks(pathname: string, windowWidth: int) returns (hovered: bool)
    requires windowWidth >= 768
    ensures hovered
  {
    var bar := new SidebarState(pathname, windowWidth);
    bar.MouseEnter();
    bar.MouseLeave();
    hovered := bar.hovered;
  }
}
