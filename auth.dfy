/**
 * `AuthState`: the session cookie, the signed-in user's record, the route guard run on every
 * page load (`check_auth`), and the login, registration and logout events. The calls to the
 * backend are replies passed in as parameters; what the model decides is which reply leads
 * to which session and which redirect or toast.
 */
module Auth {
  import opened Wrappers

  datatype Role = Admin | Doctor | Patient

  /** The value of `Role(r)`: the enum's string. */
  function RoleName(r: Role): string
  {
    match r
    case Admin => "ADMIN"
    case Doctor => "DOCTOR"
    case Patient => "PATIENT"
  }

  /** A value of the user record, as the backend's JSON sends it. */
  datatype InfoValue = Text(s: string) | Number(n: int)

  /** The user record: `{}` when nobody is signed in. */
  type UserInfo = map<string, InfoValue>

  /** Python truth of a record value: a non-empty string or a non-zero number. */
  predicate Truthy(v: InfoValue)
  {
    match v
    case Text(s) => s != ""
    case Number(n) => n != 0
  }

  /** `Role(v)`: the role whose string `v` is; any other value is a `ValueError`, here `None`. */
  function ParseRole(v: InfoValue): (r: Option<Role>)
    ensures r.Some? ==> v == Text(RoleName(r.value))
  {
    if v == Text("ADMIN") then Some(Admin)
    else if v == Text("DOCTOR") then Some(Doctor)
    else if v == Text("PATIENT") then Some(Patient)
    else None
  }

  /** Every role's string is read back as that role. */
  lemma ParseRoleName(r: Role)
    ensures ParseRole(Text(RoleName(r))) == Some(r)
  {
  }

  // ---------------------------------------------------------------------------
  // is_authenticated, user_role

  /** Signed in: the cookie holds a token and the user record is not empty. */
  predicate Authenticated(token: string, info: UserInfo)
  {
    token != "" && |info| > 0
  }

  /** What `user_role` yields: `None`, a role, or the `ValueError` of a role string that is none of the three. */
  datatype RoleField = NoRole | Known(role: Role) | Invalid

  /** `Role(role) if role else None` for the record's `"role"` entry. */
  function RoleOf(info: UserInfo): (r: RoleField)
    ensures r == NoRole <==> "role" !in info || !Truthy(info["role"])
    ensures r.Known? <==> "role" in info && ParseRole(info["role"]).Some?
    ensures r.Known? ==> info["role"] == Text(RoleName(r.role))
  {
    if "role" !in info || !Truthy(info["role"]) then NoRole
    else match ParseRole(info["role"])
      case Some(r) => Known(r)
      case None => Invalid
  }

  // ---------------------------------------------------------------------------
  // Paths

  predicate StartsWith(s: string, prefix: string)
  {
    |prefix| <= |s| && s[..|prefix|] == prefix
  }

  const PublicPaths: seq<string> := ["/", "/staff/login", "/patient/login", "/patient/register"]
  const AuthPages: seq<string> := ["/staff/login", "/patient/login", "/patient/register"]

  /** The route prefix a role may visit. */
  function Prefix(r: Role): string
  {
    match r
    case Admin => "/admin"
    case Doctor => "/doctor"
    case Patient => "/patient"
  }

  /** The landing page of a role. */
  function Dashboard(r: Role): (p: string)
    ensures StartsWith(p, Prefix(r))
  {
    match r
    case Admin => assert "/admin/dashboard"[..6] == "/admin"; "/admin/dashboard"
    case Doctor => assert "/doctor/dashboard"[..7] == "/doctor"; "/doctor/dashboard"
    case Patient => assert "/patient/dashboard"[..8] == "/patient"; "/patient/dashboard"
  }

  /** No dashboard is a public page. */
  lemma DashboardNotPublic(r: Role)
    ensures Dashboard(r) !in PublicPaths && Dashboard(r) !in AuthPages
  {
    var p := Dashboard(r);
    assert p[1] != 's' && p != "/" && (p[1] == 'p' ==> p[9] == 'd');
    assert "/patient/login"[9] == 'l' && "/patient/register"[9] == 'r';
  }

  /** The three areas are told apart by the path's second character. */
  lemma AreasDisjoint(path: string)
    ensures StartsWith(path, "/admin") ==> path[1] == 'a'
    ensures StartsWith(path, "/doctor") ==> path[1] == 'd'
    ensures StartsWith(path, "/patient") ==> path[1] == 'p'
  {
    if StartsWith(path, "/admin") {
      assert path[1] == path[..6][1];
    }
    if StartsWith(path, "/doctor") {
      assert path[1] == path[..7][1];
    }
    if StartsWith(path, "/patient") {
      assert path[1] == path[..8][1];
    }
  }

  // ---------------------------------------------------------------------------
  // The decision of check_auth

  /** What an event returns to the browser. `Failed` is an exception escaping the handler. */
  datatype Effect = Nothing | Redirect(path: string) | ToastError(message: string) | Failed

  /**
   * The route guard on `path`. A guest may see the public pages and is sent to the staff login
   * from the admin and doctor areas, to the patient login from the patient area and to `/` from
   * anywhere else. A signed-in user with a role is sent to their dashboard from `/`, from the
   * login and registration pages and from outside their role's area; one without a role stays
   * anywhere, and an unreadable role makes the handler fail.
   */
  function Guard(authenticated: bool, role: RoleField, path: string): Effect
  {
    if !authenticated then
      if path in PublicPaths then Nothing
      else if StartsWith(path, "/admin") || StartsWith(path, "/doctor") then Redirect("/staff/login")
      else if StartsWith(path, "/patient") then Redirect("/patient/login")
      else Redirect("/")
    else
      match role
      case Invalid => Failed
      case NoRole => Nothing
      case Known(r) =>
        if path in AuthPages || path == "/" then Redirect(Dashboard(r))
        else if !StartsWith(path, Prefix(r)) then Redirect(Dashboard(r))
        else Nothing
  }

  /**
   * A guest stays exactly on the public pages, and is sent to a public page otherwise: to the
   * staff login from the admin and doctor areas and to the patient login from the patient area.
   */
  lemma GuestGuard(role: RoleField, path: string)
    ensures Guard(false, role, path) == Nothing <==> path in PublicPaths
    ensures Guard(false, role, path).Redirect? ==> Guard(false, role, path).path in PublicPaths
    ensures path !in PublicPaths && (StartsWith(path, "/admin") || StartsWith(path, "/doctor")) ==>
              Guard(false, role, path) == Redirect("/staff/login")
    ensures path !in PublicPaths && StartsWith(path, "/patient") ==> Guard(false, role, path) == Redirect("/patient/login")
  {
    AreasDisjoint(path);
  }

  /**
   * A signed-in user with role `r` stays exactly on the pages of their own area other than the
   * login and registration pages; from anywhere else they are sent to their own dashboard.
   */
  lemma MemberGuard(r: Role, path: string)
    ensures Guard(true, Known(r), path) == Nothing <==> StartsWith(path, Prefix(r)) && path !in AuthPages
    ensures Guard(true, Known(r), path) != Nothing ==> Guard(true, Known(r), path) == Redirect(Dashboard(r))
  {
    if path == "/" {
      assert !StartsWith(path, Prefix(r));
    }
  }

  /** The guard settles: the page it redirects to is one on which it does nothing. */
  lemma GuardSettles(authenticated: bool, role: RoleField, path: string)
    requires Guard(authenticated, role, path).Redirect?
    ensures Guard(authenticated, role, Guard(authenticated, role, path).path) == Nothing
  {
    if authenticated {
      DashboardNotPublic(role.role);
      MemberGuard(role.role, Dashboard(role.role));
    } else {
      GuestGuard(role, path);
    }
  }

  // ---------------------------------------------------------------------------
  // The backend's replies

  /** `get_current_user`: the user record, or an HTTP error status (401 or any other). */
  datatype RefreshReply = CurrentUser(user: UserInfo) | RefreshRejected(status: int)

  /** `POST /api/auth/login`: the token and the user record, or an HTTP error status. */
  datatype LoginReply = Granted(accessToken: string, user: UserInfo) | LoginRejected(status: int)

  /** `register`: the token and the user record, or an HTTP error whose body may carry a `detail`. */
  datatype RegisterReply = Registered(accessToken: string, user: UserInfo) | RegisterRejected(detail: Option<string>)

  /** The two session fields. */
  datatype Session = Session(token: string, info: UserInfo)

  const SignedOut := Session("", map[])

  /** The session after `_update_user_info_from_token`: no token or an error status signs out. */
  function Refreshed(s: Session, reply: RefreshReply): (r: Session)
    ensures s.token == "" || reply.RefreshRejected? ==> r == SignedOut
    ensures s.token != "" && reply.CurrentUser? ==> r == Session(s.token, reply.user)
  {
    if s.token == "" then SignedOut
    else match reply
      case CurrentUser(user) => Session(s.token, user)
      case RefreshRejected(_) => SignedOut
  }

  /** `check_auth`: a session with a token but no record asks the backend first, then the guard decides. */
  function CheckAuthSession(s: Session, reply: RefreshReply): Session
  {
    if !Authenticated(s.token, s.info) && s.token != "" then Refreshed(s, reply) else s
  }

  function CheckAuthEffect(s: Session, path: string, reply: RefreshReply): Effect
  {
    var after := CheckAuthSession(s, reply);
    Guard(Authenticated(after.token, after.info), RoleOf(after.info), path)
  }

  /**
   * Following the guard's redirect ends the redirects: on the page it sends to, the next
   * `check_auth` with the same backend keeps the session and does nothing.
   */
  lemma CheckAuthSettles(s: Session, path: string, reply: RefreshReply)
    requires CheckAuthEffect(s, path, reply).Redirect?
    ensures var after := CheckAuthSession(s, reply);
            && CheckAuthSession(after, reply) == after
            && CheckAuthEffect(after, CheckAuthEffect(s, path, reply).path, reply) == Nothing
  {
    var after := CheckAuthSession(s, reply);
    if !Authenticated(s.token, s.info) && s.token != "" && reply.CurrentUser? {
      assert after == Session(s.token, reply.user);
      assert Refreshed(after, reply) == after;
    }
    assert CheckAuthSession(after, reply) == after;
    var target := CheckAuthEffect(s, path, reply).path;
    GuardSettles(Authenticated(after.token, after.info), RoleOf(after.info), path);
    assert CheckAuthEffect(after, target, reply) == Guard(Authenticated(after.token, after.info), RoleOf(after.info), target);
  }

  /**
   * A guest whose token the backend rejects is signed out, and any guest, asked or not, is
   * guarded by the path alone.
   */
  lemma RejectedRefreshIsGuest(s: Session, path: string, status: int)
    requires !Authenticated(s.token, s.info)
    ensures s.token != "" ==> CheckAuthSession(s, RefreshRejected(status)) == SignedOut
    ensures CheckAuthEffect(s, path, RefreshRejected(status)) == Guard(false, NoRole, path)
  {
  }

  // ---------------------------------------------------------------------------
  // _login and patient_register

  /** `form_data.get(key)` is a non-empty string. */
  predicate Filled(form: map<string, string>, key: string)
  {
    key in form && form[key] != ""
  }

  /** The roles each login page admits. */
  predicate AcceptsRole(isStaff: bool, r: Role)
  {
    if isStaff then r == Admin || r == Doctor else r == Patient
  }

  const FieldsRequired := "Username and password are required."
  const LoginRefused := "Invalid credentials or not authorized."
  const RegisterFieldsRequired := "Username, email, and password are required."
  const RegisterFailed := "Registration failed."

  /**
   * The session after `_login`. Missing fields and a refused login leave it as it was; a granted
   * login stores token and record before the role is checked, so a wrong role keeps them.
   */
  function LoginSession(s: Session, form: map<string, string>, reply: LoginReply): Session
  {
    if !Filled(form, "username") || !Filled(form, "password") then s
    else match reply
      case Granted(token, user) => Session(token, user)
      case LoginRejected(_) => s
  }

  /**
   * What `_login` returns: a toast for missing fields or a refused login, the `KeyError` of a
   * record without a role, a toast for a role the page does not admit, else the role's dashboard.
   */
  function LoginEffect(form: map<string, string>, isStaff: bool, reply: LoginReply): Effect
  {
    if !Filled(form, "username") || !Filled(form, "password") then ToastError(FieldsRequired)
    else match reply
      case LoginRejected(_) => ToastError(LoginRefused)
      case Granted(_, user) =>
        if "role" !in user then Failed
        else match ParseRole(user["role"])
          case None => ToastError(LoginRefused)
          case Some(r) => if AcceptsRole(isStaff, r) then Redirect(Dashboard(r)) else ToastError(LoginRefused)
  }

  /** Without both fields nothing is sent and nothing changes. */
  lemma LoginNeedsFields(s: Session, form: map<string, string>, isStaff: bool, reply: LoginReply)
    requires !Filled(form, "username") || !Filled(form, "password")
    ensures LoginEffect(form, isStaff, reply) == ToastError(FieldsRequired)
    ensures LoginSession(s, form, reply) == s
  {
  }

  /**
   * A login redirects exactly when both fields are given, the backend grants it and the
   * record's role is one the page admits; it redirects to that role's dashboard.
   */
  lemma LoginRoleGate(form: map<string, string>, isStaff: bool, reply: LoginReply)
    ensures LoginEffect(form, isStaff, reply).Redirect? <==>
              && Filled(form, "username") && Filled(form, "password") && reply.Granted?
              && "role" in reply.user && ParseRole(reply.user["role"]).Some?
              && AcceptsRole(isStaff, ParseRole(reply.user["role"]).value)
    ensures LoginEffect(form, isStaff, reply).Redirect? ==>
              LoginEffect(form, isStaff, reply).path == Dashboard(ParseRole(reply.user["role"]).value)
  {
  }

  /** The staff page never lands on the patient dashboard, and the patient page lands nowhere else. */
  lemma LoginLandings(form: map<string, string>, reply: LoginReply)
    ensures LoginEffect(form, true, reply).Redirect? ==>
              LoginEffect(form, true, reply).path in {"/admin/dashboard", "/doctor/dashboard"}
    ensures LoginEffect(form, false, reply).Redirect? ==> LoginEffect(form, false, reply).path == "/patient/dashboard"
  {
  }

  /**
   * A login that redirects, with a non-empty token, leaves a session that the guard lets stay
   * on the page it was sent to.
   */
  lemma LoginThenGuard(s: Session, form: map<string, string>, isStaff: bool, reply: LoginReply, refresh: RefreshReply)
    requires LoginEffect(form, isStaff, reply).Redirect? && reply.Granted? && reply.accessToken != ""
    ensures var after := LoginSession(s, form, reply);
            && Authenticated(after.token, after.info)
            && CheckAuthEffect(after, LoginEffect(form, isStaff, reply).path, refresh) == Nothing
  {
    var r := ParseRole(reply.user["role"]).value;
    var after := LoginSession(s, form, reply);
    assert "role" in after.info;
    assert RoleOf(after.info) == Known(r);
    DashboardNotPublic(r);
    MemberGuard(r, Dashboard(r));
  }

  /**
   * A login refused for its role still stores the granted token and record: with a non-empty
   * token the user is signed in afterwards, with the refused role.
   */
  lemma RefusedRoleStaysSignedIn(s: Session, form: map<string, string>, isStaff: bool, reply: LoginReply)
    requires Filled(form, "username") && Filled(form, "password")
    requires reply.Granted? && reply.accessToken != "" && "role" in reply.user
    requires ParseRole(reply.user["role"]).Some? && !AcceptsRole(isStaff, ParseRole(reply.user["role"]).value)
    ensures LoginEffect(form, isStaff, reply) == ToastError(LoginRefused)
    ensures var after := LoginSession(s, form, reply);
            Authenticated(after.token, after.info) && RoleOf(after.info) == Known(ParseRole(reply.user["role"]).value)
  {
    assert "role" in LoginSession(s, form, reply).info;
  }

  /** `patient_register` needs all three fields. */
  predicate RegisterFilled(form: map<string, string>)
  {
    Filled(form, "username") && Filled(form, "email") && Filled(form, "password")
  }

  function RegisterSession(s: Session, form: map<string, string>, reply: RegisterReply): Session
  {
    if !RegisterFilled(form) then s
    else match reply
      case Registered(token, user) => Session(token, user)
      case RegisterRejected(_) => s
  }

  function RegisterEffect(form: map<string, string>, reply: RegisterReply): Effect
  {
    if !RegisterFilled(form) then ToastError(RegisterFieldsRequired)
    else match reply
      case Registered(_, _) => Redirect("/patient/dashboard")
      case RegisterRejected(detail) => ToastError(match detail case Some(m) => m case None => RegisterFailed)
  }

  /**
   * Registration with a missing username, email or password changes nothing; with all three
   * it signs in with the backend's token and record and lands on the patient dashboard, and a
   * refused registration shows the backend's detail, or a default message without one.
   */
  lemma RegisterOutcome(s: Session, form: map<string, string>, reply: RegisterReply)
    ensures !RegisterFilled(form) ==>
              RegisterEffect(form, reply) == ToastError(RegisterFieldsRequired) && RegisterSession(s, form, reply) == s
    ensures RegisterEffect(form, reply).Redirect? <==> RegisterFilled(form) && reply.Registered?
    ensures RegisterEffect(form, reply).Redirect? ==>
              RegisterEffect(form, reply).path == "/patient/dashboard"
              && RegisterSession(s, form, reply) == Session(reply.accessToken, reply.user)
    ensures RegisterFilled(form) && reply.RegisterRejected? ==>
              RegisterSession(s, form, reply) == s
              && RegisterEffect(form, reply) == ToastError(if reply.detail.Some? then reply.detail.value else RegisterFailed)
  {
  }

  // ---------------------------------------------------------------------------
  // The state

  class AuthState {
    var token: string
    var userInfo: UserInfo
    var isLoading: bool

    constructor()
      ensures token == "" && userInfo == map[] && !isLoading
    {
      token := "";
      userInfo := map[];
      isLoading := false;
    }

    function Current(): Session
      reads this
    {
      Session(token, userInfo)
    }

    predicate IsAuthenticated()
      reads this
    {
      Authenticated(token, userInfo)
    }

    function UserRole(): RoleField
      reads this
    {
      RoleOf(userInfo)
    }

    /** Forget the token and the record, and go to `/`. */
    method Logout() returns (e: Effect)
      modifies this`token, this`userInfo
      ensures Current() == SignedOut && !IsAuthenticated() && UserRole() == NoRole
      ensures e == Redirect("/")
    {
      token := "";
      userInfo := map[];
      e := Redirect("/");
    }

    /** `_update_user_info_from_token`: ask the backend for the record; any error signs out. */
    method UpdateUserInfoFromToken(reply: RefreshReply)
      modifies this`token, this`userInfo
      ensures Current() == Refreshed(old(Current()), reply)
    {
      if token == "" {
        var _ := Logout();
        return;
      }
      match reply
      case CurrentUser(user) =>
        userInfo := user;
      case RefreshRejected(_) =>
        var _ := Logout();
    }

    /** `check_auth` on the page `path`, with `reply` as the backend's answer if it is asked. */
    method CheckAuth(path: string, reply: RefreshReply) returns (e: Effect)
      modifies this`token, this`userInfo
      ensures Current() == CheckAuthSession(old(Current()), reply)
      ensures e == CheckAuthEffect(old(Current()), path, reply)
      ensures e == Guard(IsAuthenticated(), UserRole(), path)
    {
      if !IsAuthenticated() && token != "" {
        UpdateUserInfoFromToken(reply);
      }
      e := Guard(IsAuthenticated(), UserRole(), path);
    }

    /** `_login` from the staff page (`isStaff`) or the patient page. */
    method Login(form: map<string, string>, isStaff: bool, reply: LoginReply) returns (e: Effect)
      modifies this
      ensures Current() == LoginSession(old(Current()), form, reply)
      ensures e == LoginEffect(form, isStaff, reply)
      ensures isLoading == (old(isLoading) && !(Filled(form, "username") && Filled(form, "password")))
    {
      if !Filled(form, "username") || !Filled(form, "password") {
        return ToastError(FieldsRequired);
      }
      isLoading := true;
      match reply {
      case LoginRejected(_) =>
        e := ToastError(LoginRefused);
      case Granted(accessToken, user) =>
        token := accessToken;
        userInfo := user;
        if "role" !in userInfo {
          e := Failed;
        } else {
          match ParseRole(userInfo["role"])
          case None =>
            e := ToastError(LoginRefused);
          case Some(role) =>
            if isStaff && role != Admin && role != Doctor {
              e := ToastError(LoginRefused);
            } else if !isStaff && role != Patient {
              e := ToastError(LoginRefused);
            } else {
              e := Redirect(Dashboard(role));
            }
        }
      }
      isLoading := false;
    }

    method StaffLogin(form: map<string, string>, reply: LoginReply) returns (e: Effect)
      modifies this
      ensures Current() == LoginSession(old(Current()), form, reply)
      ensures e == LoginEffect(form, true, reply)
      ensures isLoading == (old(isLoading) && !(Filled(form, "username") && Filled(form, "password")))
    {
      e := Login(form, true, reply);
    }

    method PatientLogin(form: map<string, string>, reply: LoginReply) returns (e: Effect)
      modifies this
      ensures Current() == LoginSession(old(Current()), form, reply)
      ensures e == LoginEffect(form, false, reply)
      ensures isLoading == (old(isLoading) && !(Filled(form, "username") && Filled(form, "password")))
    {
      e := Login(form, false, reply);
    }

    method PatientRegister(form: map<string, string>, reply: RegisterReply) returns (e: Effect)
      modifies this
      ensures Current() == RegisterSession(old(Current()), form, reply)
      ensures e == RegisterEffect(form, reply)
      ensures isLoading == (old(isLoading) && !RegisterFilled(form))
    {
      if !RegisterFilled(form) {
        return ToastError(RegisterFieldsRequired);
      }
      isLoading := true;
      match reply {
      case Registered(accessToken, user) =>
        token := accessToken;
        userInfo := user;
        e := Redirect("/patient/dashboard");
      case RegisterRejected(detail) =>
        e := ToastError(if detail.Some? then detail.value else RegisterFailed);
      }
      isLoading := false;
    }
  }
}
