/** The navigation sidebar (src/Sidebar.jsx): which links each role sees,
    the collapsed state that follows the window width, and the mobile menu
    flags shared with the toggle button. */
module Sidebar {
  import opened Wrappers
  import opened Roles
  import Access

  // =====================================================================
  // Links
  // =====================================================================

  datatype Link = DashboardLink | MyHoursLink | CatalogueLink | SignaturesLink | UsersLink | CalendarLink | SettingsLink

  function PathOf(link: Link): string {
    match link
    case DashboardLink => "/dashboard"
    case MyHoursLink => "/volunteer"
    case CatalogueLink => "/members"
    case SignaturesLink => "/signatures"
    case UsersLink => "/users"
    case CalendarLink => "/calendar"
    case SettingsLink => "/settings"
  }

  /** The condition around each link, for the profile's role (`None` while
      no profile is loaded): Dashboard and Settings always, My Hours for
      anyone but an administrator, the catalogue for leaders and
      administrators, Signatures and Users for administrators, and the
      calendar on mobile. */
  predicate Visible(link: Link, role: Option<Role>, isMobile: bool) {
    match link
    case DashboardLink => true
    case MyHoursLink => role != Some(Admin)
    case CatalogueLink => role == Some(Leader) || role == Some(Admin)
    case SignaturesLink => role == Some(Admin)
    case UsersLink => role == Some(Admin)
    case CalendarLink => isMobile
    case SettingsLink => true
  }

  /** The links of the sidebar's `nav`, in order: the dashboard first,
      settings last, and in between exactly the links whose condition
      holds. */
  function Links(role: Option<Role>, isMobile: bool): (r: seq<Link>)
    ensures forall link :: link in r <==> Visible(link, role, isMobile)
    ensures |r| >= 2 && r[0] == DashboardLink && r[|r| - 1] == SettingsLink
  {
    var a := [DashboardLink];
    var b := if role != Some(Admin) then [MyHoursLink] else [];
    var c := if IsManager(role) then [CatalogueLink] else [];
    var d := if role == Some(Admin) then [SignaturesLink, UsersLink] else [];
    var e := if isMobile then [CalendarLink] else [];
    var f := [SettingsLink];
    var r := a + b + c + d + e + f;
    assert forall link :: link in r <==> link in a || link in b || link in c || link in d || link in e || link in f;
    r
  }

  /** Every link shown to an approved user opens its page rather than
      redirecting. */
  lemma LinksOpenPages(profile: Access.Profile, isMobile: bool, link: Link)
    requires profile.approved && link in Links(Some(profile.role), isMobile)
    ensures Access.Route(PathOf(link), false, true, Some(profile)).Render?
  {
    var p := Some(profile);
    assert Access.Approved(p) && Access.RoleOf(p) == Some(profile.role);
  }

  /** Every page an approved user can open has a link in the sidebar,
      except My Hours for an administrator and the calendar off mobile. */
  lemma PagesHaveLinks(profile: Access.Profile, isMobile: bool, path: string)
    requires profile.approved && path in Access.GatedPaths
    requires Access.Route(path, false, true, Some(profile)).Render?
    requires !(path == "/volunteer" && profile.role == Admin) && !(path == "/calendar" && !isMobile)
    ensures exists link :: link in Links(Some(profile.role), isMobile) && PathOf(link) == path
  {
    var role := Some(profile.role);
    var link :=
      if path == "/members" then CatalogueLink
      else if path == "/signatures" then SignaturesLink
      else if path == "/users" then UsersLink
      else if path == "/settings" then SettingsLink
      else if path == "/volunteer" then MyHoursLink
      else CalendarLink;
    assert PathOf(link) == path;
  }

  // =====================================================================
  // Collapse and the mobile menu
  // =====================================================================

  const MobileWidth := 768
  const DesktopWidth := 1200

  /** Medium screens, where the sidebar is always collapsed. */
  predicate Medium(width: int) {
    MobileWidth < width <= DesktopWidth
  }

  /** `shouldBeCollapsed` */
  function ShouldBeCollapsed(width: int, isCollapsed: bool): (r: bool)
    ensures Medium(width) ==> r
    ensures !Medium(width) ==> r == isCollapsed
  {
    if Medium(width) then true else isCollapsed
  }

  /** Whether a link shows its text: when expanded, and always on mobile. */
  function LinkTextShown(link: Link, width: int, isCollapsed: bool, isMobile: bool): (r: bool)
    ensures link == CalendarLink ==> r
    ensures r <==> link == CalendarLink || !ShouldBeCollapsed(width, isCollapsed) || isMobile
  {
    link == CalendarLink || !ShouldBeCollapsed(width, isCollapsed) || isMobile
  }

  /** The sidebar's own state and the mobile flags of the surrounding
      provider. */
  class SidebarState {
    var isCollapsed: bool
    var windowWidth: int
    var isMobile: bool
    var isMobileOpen: bool

    /** The mobile menu is never open off mobile. */
    predicate Valid()
      reads this
    {
      isMobileOpen ==> isMobile
    }

    /** Mount: the saved collapse flag, the window width, a closed menu; the
        resize handler runs once on mount. */
    constructor(savedCollapsed: bool, width: int)
      ensures Valid() && windowWidth == width && !isMobileOpen
      ensures isMobile == (width <= MobileWidth)
      ensures isCollapsed == (savedCollapsed || Medium(width))
    {
      isCollapsed := savedCollapsed;
      windowWidth := width;
      isMobile := width <= MobileWidth;
      isMobileOpen := false;
      new;
      Resize(width);
    }

    /** `handleResize`: records the width and collapses on medium screens. */
    method Resize(width: int)
      modifies this
      ensures windowWidth == width
      ensures isCollapsed == (old(isCollapsed) || Medium(width))
      ensures isMobile == old(isMobile) && isMobileOpen == old(isMobileOpen)
    {
      windowWidth := width;
      if Medium(width) {
        isCollapsed := true;
      }
    }

    /** `handleToggle`: flips the collapse flag on wide screens only. */
    method Toggle()
      modifies this
      ensures isCollapsed == if windowWidth > DesktopWidth then !old(isCollapsed) else old(isCollapsed)
      ensures windowWidth == old(windowWidth) && isMobile == old(isMobile) && isMobileOpen == old(isMobileOpen)
    {
      if windowWidth > DesktopWidth {
        isCollapsed := !isCollapsed;
      }
    }

    /** `checkMobile` after its debounce: a change of the mobile flag is
        taken, and leaving mobile closes the menu. */
    method CheckMobile(width: int)
      requires Valid()
      modifies this
      ensures Valid()
      ensures isMobile == (width <= MobileWidth)
      ensures old(isMobile) && !isMobile ==> !isMobileOpen
      ensures old(isMobile) == isMobile ==> isMobileOpen == old(isMobileOpen)
      ensures !old(isMobile) ==> isMobileOpen == old(isMobileOpen)
      ensures isCollapsed == old(isCollapsed) && windowWidth == old(windowWidth)
    {
      var mobile := width <= MobileWidth;
      if isMobile != mobile {
        if !mobile {
          isMobileOpen := false;
        }
        isMobile := mobile;
      }
    }

    /** `handleLinkClick`: following a link closes the menu on mobile. */
    method LinkClick()
      requires Valid()
      modifies this
      ensures Valid()
      ensures isMobileOpen == (old(isMobileOpen) && !isMobile)
      ensures isMobile == old(isMobile) && isCollapsed == old(isCollapsed) && windowWidth == old(windowWidth)
    {
      if isMobile {
        isMobileOpen := false;
      }
    }

    /** A key press while the mobile menu is open: Escape closes it. */
    method KeyDown(key: string)
      requires Valid()
      modifies this
      ensures Valid()
      ensures isMobileOpen == (old(isMobileOpen) && key != "Escape")
      ensures isMobile == old(isMobile) && isCollapsed == old(isCollapsed) && windowWidth == old(windowWidth)
    {
      if isMobile && isMobileOpen && key == "Escape" {
        isMobileOpen := false;
      }
    }

    /** The overlay and the close button close the menu. */
    method CloseMenu()
      requires Valid()
      modifies this
      ensures Valid() && !isMobileOpen
      ensures isMobile == old(isMobile) && isCollapsed == old(isCollapsed) && windowWidth == old(windowWidth)
    {
      isMobileOpen := false;
    }

    /** `MobileNavToggle` renders its button only on mobile. */
    predicate NavToggleShown()
      reads this
    {
      isMobile
    }

    /** A click on the `MobileNavToggle` button flips the menu. */
    method NavToggleClick()
      requires Valid() && NavToggleShown()
      modifies this
      ensures Valid()
      ensures isMobileOpen == !old(isMobileOpen)
      ensures isMobile == old(isMobile) && isCollapsed == old(isCollapsed) && windowWidth == old(windowWidth)
    {
      isMobileOpen := !isMobileOpen;
    }
  }
}
