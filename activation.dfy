/**
 * Account activation of auth_app/utils/email_activation.py: the link and
 * the mail `send_activation_email` builds, and `activate_user`, which flips
 * `is_active` only for a valid token. The token generator is an oracle:
 * `token` is what `make_token` gave, `checkToken` is `check_token`.
 */
module Activation {
  import opened Wrappers
  import opened Text
  import opened Accounts

  const ActivationSubject := "Activate your Videoflix account"

  /** `f"{BACKEND_BASE_URL}/api/activate/{uid}/{token}/"`. */
  function ActivationLink(backendBaseUrl: string, pk: nat, token: string): (link: string)
    ensures link == backendBaseUrl + "/api/activate/" + EncodeUid(pk) + "/" + token + "/"
  {
    LinkPathOfTwo("api", "activate", pk, token);
    backendBaseUrl + LinkPath(["api", "activate"], pk, token)
  }

  /**
   * After the base URL, the link is the `activate` route followed by the
   * user's uid and the token, and the uid reads back as the user's key.
   */
  lemma ActivationLinkCarriesKey(backendBaseUrl: string, pk: nat, token: string)
    requires '/' !in token
    ensures var link := ActivationLink(backendBaseUrl, pk, token);
      && link[..|backendBaseUrl|] == backendBaseUrl
      && Split(link[|backendBaseUrl|..]) == ["", "api", "activate", EncodeUid(pk), token, ""]
      && DecodeUid(Split(link[|backendBaseUrl|..])[3]) == Some(pk)
  {
    LinkCarriesKey(["api", "activate"], pk, token);
    var link := backendBaseUrl + LinkPath(["api", "activate"], pk, token);
    assert link[|backendBaseUrl|..] == LinkPath(["api", "activate"], pk, token);
    assert [""] + ["api", "activate"] + [EncodeUid(pk), token, ""] == ["", "api", "activate", EncodeUid(pk), token, ""];
  }

  const ActivationGreeting := "Welcome to Videoflix!\n\nPlease activate your account by clicking the link below:"

  /**
   * The plain-text body: a greeting, the link on a line of its own between
   * blank lines, and a note for those who did not register.
   */
  function ActivationBody(link: string): (body: string)
    ensures ActivationGreeting <= body
    ensures Contains(body, link)
    ensures Contains(body, "\n\n" + link + "\n\n")
  {
    LinkMailBody(ActivationGreeting, link, "If you did not register, you can ignore this email.")
  }

  /** `send_activation_email`: one mail to the user's own address, carrying the activation link. */
  function ActivationMail(user: User, backendBaseUrl: string, token: string): (m: Mail)
    ensures m.to == [user.email] && m.subject == ActivationSubject
    ensures Contains(m.body, ActivationLink(backendBaseUrl, user.id, token))
  {
    Mail(ActivationSubject, ActivationBody(ActivationLink(backendBaseUrl, user.id, token)), [user.email])
  }

  /**
   * `activate_user`: an undecodable uid or a missing row gives None; an
   * active row is returned as it is without looking at the token; an
   * inactive row with a valid token is activated, saved and returned; an
   * invalid token gives None.
   */
  function Activate(users: map<nat, User>, uidb64: string, token: string, checkToken: (User, string) -> bool): (c: Change)
    ensures UserByUid(users, uidb64).None? ==> c == Change(None, users)
    ensures c.result.Some? <==>
      UserByUid(users, uidb64).Some? && (UserByUid(users, uidb64).value.isActive || checkToken(UserByUid(users, uidb64).value, token))
    ensures c.result.Some? ==> c.result.value == UserByUid(users, uidb64).value.(isActive := true)
    ensures c.result.Some? ==> c.users == users[DecodeUid(uidb64).value := c.result.value]
    ensures c.result.None? ==> c.users == users
  {
    match UserByUid(users, uidb64)
    case None => Change(None, users)
    case Some(u) =>
      if u.isActive then
        assert users[DecodeUid(uidb64).value := u] == users;
        Change(Some(u), users)
      else if checkToken(u, token) then
        var v := u.(isActive := true);
        Change(Some(v), users[DecodeUid(uidb64).value := v])
      else Change(None, users)
  }

  /**
   * Activation changes nothing but `is_active` of the addressed row, only
   * from false to true, and a successful one leaves that row active.
   */
  lemma ActivationOnlyActivates(users: map<nat, User>, uidb64: string, token: string, checkToken: (User, string) -> bool)
    ensures var c := Activate(users, uidb64, token, checkToken);
      && c.users.Keys == users.Keys
      && (forall id :: id in users && Some(id) != DecodeUid(uidb64) ==> c.users[id] == users[id])
      && (forall id :: id in users ==> c.users[id] == users[id].(isActive := c.users[id].isActive))
      && (forall id :: id in users && users[id].isActive ==> c.users[id].isActive)
      && (c.result.Some? ==> c.users[DecodeUid(uidb64).value].isActive)
  {
  }

  /**
   * Activation is idempotent: once it succeeded, repeating it with any
   * token returns the same active row and changes nothing.
   */
  lemma ActivationIdempotent(users: map<nat, User>, uidb64: string, token: string, again: string, checkToken: (User, string) -> bool)
    requires Activate(users, uidb64, token, checkToken).result.Some?
    ensures var c := Activate(users, uidb64, token, checkToken);
      Activate(c.users, uidb64, again, checkToken) == Change(c.result, c.users)
  {
    var c := Activate(users, uidb64, token, checkToken);
    var pk := DecodeUid(uidb64).value;
    assert c.users[pk] == users[pk].(isActive := true);
  }

  /** After a successful activation the account logs in with its password. */
  lemma LoginAfterActivation(users: map<nat, User>, uidb64: string, token: string, checkToken: (User, string) -> bool)
    requires EmailsUnique(users) && KeyedById(users)
    requires Activate(users, uidb64, token, checkToken).result.Some?
    ensures var u := Activate(users, uidb64, token, checkToken).result.value;
      Login(Activate(users, uidb64, token, checkToken).users, u.email, u.password) == LoggedIn(u.id, u.username)
  {
    var c := Activate(users, uidb64, token, checkToken);
    var pk := DecodeUid(uidb64).value;
    var u := c.result.value;
    ActivationOnlyActivates(users, uidb64, token, checkToken);
    assert EmailsUnique(c.users) by {
      forall a, b | a in c.users && b in c.users && c.users[a].email == c.users[b].email
        ensures a == b
      {
        assert users[a].email == users[b].email;
      }
    }
    assert pk in UsersWithEmail(c.users, u.email);
    assert UsersWithEmail(c.users, u.email) == {pk};
  }

  /** `activate_user` on the user table, proved against `Activate`. */
  method ActivateUser(table: UserTable, uidb64: string, token: string, checkToken: (User, string) -> bool) returns (r: Option<User>)
    requires table.Valid()
    modifies table
    ensures table.Valid() && table.nextId == old(table.nextId)
    ensures var c := Activate(old(table.users), uidb64, token, checkToken);
      r == c.result && table.users == c.users
  {
    var pk := DecodeUid(uidb64);
    if pk.None? || pk.value !in table.users {
      return None;
    }
    var user := table.users[pk.value];
    if user.isActive {
      return Some(user);
    }
    if checkToken(user, token) {
      user := user.(isActive := true);
      table.Save(user);
      return Some(user);
    }
    return None;
  }
}
