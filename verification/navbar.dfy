/** The navigation bar: which links, badges and groups are visible for a
    given sign-in state, admin flag, cart count and theme. */
module Navbar {
  import opened Wrappers
  import opened StoreTypes

  datatype ThemeIcon = Sun | Moon

  /** The cart link and, when the cart holds something, its count badge. */
  datatype CartLink = CartLink(badge: Option<int>)

  /** The right-hand group: the username with a Logout button, or the
      Login and Sign Up links. */
  datatype AccountArea = SignedIn(username: string) | SignedOut

  datatype NavbarView = NavbarView(
    productsLink: bool,
    myOrdersLink: bool,
    dashboardLink: bool,
    themeIcon: ThemeIcon,
    cartLink: Option<CartLink>,
    account: AccountArea)

  function Render(user: Option<User>, isAdmin: bool, cartCount: int, isDarkMode: bool): NavbarView {
    var customer := user.Some? && !isAdmin;
    NavbarView(
      true,
      customer,
      isAdmin,
      if isDarkMode then Sun else Moon,
      if customer then Some(CartLink(if cartCount > 0 then Some(cartCount) else None)) else None,
      if user.Some? then SignedIn(user.value.username) else SignedOut)
  }

  /** The visibility table of the bar. */
  lemma Visibility(user: Option<User>, isAdmin: bool, cartCount: int, isDarkMode: bool)
    ensures var v := Render(user, isAdmin, cartCount, isDarkMode);
      && v.productsLink
      && (v.myOrdersLink <==> user.Some? && !isAdmin)
      && (v.dashboardLink <==> isAdmin)
      && (v.cartLink.Some? <==> user.Some? && !isAdmin)
      && !(v.cartLink.Some? && v.dashboardLink)
      && (v.themeIcon == Sun <==> isDarkMode)
  {
  }

  /** The badge exists only inside the cart link, only for a positive count,
      and shows the count itself; so a badge is only ever seen by a signed-in
      non-admin, next to My Orders and never next to Dashboard. */
  lemma CartBadge(user: Option<User>, isAdmin: bool, cartCount: int, isDarkMode: bool)
    ensures var v := Render(user, isAdmin, cartCount, isDarkMode);
      && (v.cartLink.Some? ==> (v.cartLink.value.badge.Some? <==> cartCount > 0))
      && (v.cartLink.Some? && v.cartLink.value.badge.Some? ==>
            && v.cartLink.value.badge.value == cartCount
            && v.cartLink.value.badge.value > 0
            && v.account.SignedIn?
            && v.myOrdersLink
            && !v.dashboardLink)
  {
  }

  /** Exactly one of the two account groups shows: the signed-in group with
      the user's own name when a user is present, Login/Sign Up otherwise.
      Beside Login/Sign Up there is never My Orders or a cart link; beside
      the username there is exactly one of Dashboard and the cart link. */
  lemma AccountGroup(user: Option<User>, isAdmin: bool, cartCount: int, isDarkMode: bool)
    ensures var v := Render(user, isAdmin, cartCount, isDarkMode);
      && (v.account.SignedIn? <==> user.Some?)
      && (v.account.SignedOut? <==> user.None?)
      && (v.account.SignedIn? ==> v.account.username == user.value.username)
      && (v.account.SignedOut? ==> !v.myOrdersLink && v.cartLink.None? && (v.dashboardLink <==> isAdmin))
      && (v.account.SignedIn? ==> (v.dashboardLink <==> v.cartLink.None?))
  {
  }

  /** For a signed-in user exactly one of Dashboard and the cart link shows,
      and My Orders always goes with the cart link. */
  lemma SignedInSeesOneArea(user: Option<User>, isAdmin: bool, cartCount: int, isDarkMode: bool)
    requires user.Some?
    ensures var v := Render(user, isAdmin, cartCount, isDarkMode);
      && (v.dashboardLink <==> !v.cartLink.Some?)
      && (v.myOrdersLink <==> v.cartLink.Some?)
  {
  }

  /** When the admin flag agrees with the user's role, the role alone decides
      the bar: admins get Dashboard, customers get My Orders and the cart,
      anonymous visitors get neither. */
  lemma RoleDecidesLinks(user: Option<User>, isAdmin: bool, cartCount: int, isDarkMode: bool)
    requires isAdmin <==> user.Some? && user.value.role == Admin
    ensures var v := Render(user, isAdmin, cartCount, isDarkMode);
      && (v.dashboardLink <==> user.Some? && user.value.role == Admin)
      && (v.cartLink.Some? <==> user.Some? && user.value.role == Customer)
      && (user.None? ==> !v.dashboardLink && !v.myOrdersLink && v.cartLink.None?)
  {
  }
}
