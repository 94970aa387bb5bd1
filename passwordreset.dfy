/**
 * Password reset of auth_app/utils/reset_password.py: the mail
 * `send_reset_email` sends (nothing for an unknown address) and
 * `reset_user_password`, which stores the new password only for a valid
 * token. `makeToken` and `checkToken` stand for `default_token_generator`.
 */
module PasswordReset {
  import opened Wrappers
  import opened Text
  import opened Accounts

  const ResetSubject := "Reset your Videoflix password"

  /** `f"{CSRF_TRUSTED_ORIGINS[0]}/reset-password/{uid}/{token}/"`. */
  function ResetLink(frontendBaseUrl: string, pk: nat, token: string): (link: string)
    ensures link == frontendBaseUrl + "/reset-password/" + EncodeUid(pk) + "/" + token + "/"
  {
    LinkPathOfOne("reset-password", pk, token);
    frontendBaseUrl + LinkPath(["reset-password"], pk, token)
  }

  lemma LinkPathOfOne(w: string, pk: nat, token: string)
    ensures LinkPath([w], pk, token) == "/" + w + "/" + EncodeUid(pk) + "/" + token + "/"
  {
    var uid := EncodeUid(pk);
    var parts := [""] + [w] + [uid, token, ""];
    assert parts == ["", w, uid, token, ""];
    assert parts[4..] == [""];
    assert Join(parts[3..], "/") == token + "/" + "" by { assert parts[3..][1..] == parts[4..]; }
    assert Join(parts[2..], "/") == uid + "/" + Join(parts[3..], "/") by { assert parts[2..][1..] == parts[3..]; }
    assert Join(parts[1..], "/") == w + "/" + Join(parts[2..], "/") by { assert parts[1..][1..] == parts[2..]; }
    assert Join(parts, "/") == "" + "/" + Join(parts[1..], "/");
  }

  /**
   * After the frontend origin, the link is the `reset-password` route
   * followed by the uid and the token, and the uid reads back as the key.
   */
  lemma ResetLinkCarriesKey(frontendBaseUrl: string, pk: nat, token: string)
    requires '/' !in token
    ensures var link := ResetLink(frontendBaseUrl, pk, token);
      && link[..|frontendBaseUrl|] == frontendBaseUrl
      && Split(link[|frontendBaseUrl|..]) == ["", "reset-password", EncodeUid(pk), token, ""]
      && DecodeUid(Split(link[|frontendBaseUrl|..])[2]) == Some(pk)
  {
    LinkCarriesKey(["reset-password"], pk, token);
    var link := frontendBaseUrl + LinkPath(["reset-password"], pk, token);
    assert link[|frontendBaseUrl|..] == LinkPath(["reset-password"], pk, token);
    assert [""] + ["reset-password"] + [EncodeUid(pk), token, ""] == ["", "reset-password", EncodeUid(pk), token, ""];
  }

  const ResetNotice := "We received a request to reset your password."

  /** The plain-text body: the request notice, the link on a line of its own between blank lines, and a note. */
  function ResetBody(link: string): (body: string)
    ensures ResetNotice <= body
    ensures Contains(body, link)
    ensures Contains(body, "\n\n" + link + "\n\n")
  {
    LinkMailBody(ResetNotice, link, "If you did not request this, please ignore this email.")
  }

  /** What `send_reset_email` does. */
  datatype ResetMail =
    | NothingSent        // no user with that email: returns quietly
    | LookupCrashed      // several users with that email: MultipleObjectsReturned propagates
    | Sent(mail: Mail)

  /**
   * `send_reset_email`: nothing for an unknown address; otherwise one mail
   * to the stored address of the user found, carrying the reset link made
   * from that user's key and token.
   */
  function SendResetEmail(users: map<nat, User>, email: string, frontendBaseUrl: string, makeToken: User -> string): (r: ResetMail)
    ensures r.NothingSent? <==> forall id :: id in users ==> users[id].email != email
    ensures r.LookupCrashed? <==> UserByEmail(users, email).SeveralUsers?
    ensures r.Sent? ==>
      var found := UserByEmail(users, email);
      && found.OneUser?
      && r.mail.to == [found.user.email] && r.mail.to == [email]
      && r.mail.subject == ResetSubject
      && Contains(r.mail.body, ResetLink(frontendBaseUrl, found.pk, makeToken(found.user)))
  {
    match UserByEmail(users, email)
    case NoUser => NothingSent
    case SeveralUsers => LookupCrashed
    case OneUser(pk, u) =>
      Sent(Mail(ResetSubject, ResetBody(ResetLink(frontendBaseUrl, pk, makeToken(u))), [u.email]))
  }

  /**
   * `reset_user_password`: an undecodable uid or a missing row gives None;
   * with a valid token the new password is stored and the row returned,
   * whether the account is active or not; an invalid token gives None.
   */
  function Reset(users: map<nat, User>, uidb64: string, token: string, newPassword: string,
                 checkToken: (User, string) -> bool): (c: Change)
    ensures c.result.Some? <==> UserByUid(users, uidb64).Some? && checkToken(UserByUid(users, uidb64).value, token)
    ensures c.result.Some? ==> c.result.value == UserByUid(users, uidb64).value.(password := newPassword)
    ensures c.result.Some? ==> c.users == users[DecodeUid(uidb64).value := c.result.value]
    ensures c.result.None? ==> c.users == users
  {
    match UserByUid(users, uidb64)
    case None => Change(None, users)
    case Some(u) =>
      if checkToken(u, token) then
        var v := u.(password := newPassword);
        Change(Some(v), users[DecodeUid(uidb64).value := v])
      else Change(None, users)
  }

  /**
   * A reset changes nothing but the password of the addressed row; the
   * row's activation state is kept.
   */
  lemma ResetOnlyChangesPassword(users: map<nat, User>, uidb64: string, token: string, newPassword: string,
                                 checkToken: (User, string) -> bool)
    ensures var c := Reset(users, uidb64, token, newPassword, checkToken);
      && c.users.Keys == users.Keys
      && (forall id :: id in users && Some(id) != DecodeUid(uidb64) ==> c.users[id] == users[id])
      && (forall id :: id in users ==> c.users[id] == users[id].(password := c.users[id].password))
      && (c.result.Some? ==> c.users[DecodeUid(uidb64).value].password == newPassword)
  {
  }

  /**
   * After a successful reset of an active account the new password logs
   * in and a different old one no longer does.
   */
  lemma LoginAfterReset(users: map<nat, User>, uidb64: string, token: string, newPassword: string,
                        checkToken: (User, string) -> bool)
    requires EmailsUnique(users) && KeyedById(users)
    requires Reset(users, uidb64, token, newPassword, checkToken).result.Some?
    requires UserByUid(users, uidb64).value.isActive
    ensures var c := Reset(users, uidb64, token, newPassword, checkToken);
      var u := c.result.value;
      && Login(c.users, u.email, newPassword) == LoggedIn(u.id, u.username)
      && (forall other :: other != newPassword ==> Login(c.users, u.email, other) == LoginRejected(InvalidCredentialsMessage))
  {
    var c := Reset(users, uidb64, token, newPassword, checkToken);
    var pk := DecodeUid(uidb64).value;
    var u := c.result.value;
    ResetOnlyChangesPassword(users, uidb64, token, newPassword, checkToken);
    assert EmailsUnique(c.users) by {
      forall a, b | a in c.users && b in c.users && c.users[a].email == c.users[b].email
        ensures a == b
      {
        assert users[a].email == users[b].email;
      }
    }
    assert pk in UsersWithEmail(c.users, u.email);
    assert UsersWithEmail(c.users, u.email) == {pk};
  }

  /** `reset_user_password` on the user table, proved against `Reset`. */
  method ResetUserPassword(table: UserTable, uidb64: string, token: string, newPassword: string,
                           checkToken: (User, string) -> bool) returns (r: Option<User>)
    requires table.Valid()
    modifies table
    ensures table.Valid() && table.nextId == old(table.nextId)
    ensures var c := Reset(old(table.users), uidb64, token, newPassword, checkToken);
      r == c.result && table.users == c.users
  {
    var pk := DecodeUid(uidb64);
    if pk.None? || pk.value !in table.users {
      return None;
    }
    var user := table.users[pk.value];
    if checkToken(user, token) {
      user := user.(password := newPassword);
      table.Save(user);
      return Some(user);
    }
    return None;
  }
}
