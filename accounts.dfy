/**
 * Accounts of auth_app: Django's user table as a class over a map from
 * primary key to row, the checks of the registration, login and
 * password-confirmation serializers, the insertion `create` performs, and
 * the uid codec the emailed links use (the decimal primary key as bytes,
 * base64url-encoded without padding).
 */
module Accounts {
  import opened Wrappers
  import opened Text
  import opened Base64Url

  /**
   * One row of the user table. `password` stands for the stored credential:
   * `set_password` stores it and `check_password` accepts exactly it.
   */
  datatype User = User(id: nat, username: string, email: string, password: string, isActive: bool)

  const CheckEntriesMessage := "Please check your entries and try again."
  const InvalidCredentialsMessage := "Invalid email or password."
  const NotActivatedMessage := "Account is not activated."

  /** The verdict of a serializer check: the value passes, or `ValidationError(message)`. */
  datatype Verdict = Accepted | Rejected(message: string)

  /** The rows whose email is `email` (`User.objects.filter(email=email)`). */
  function UsersWithEmail(users: map<nat, User>, email: string): (ids: set<nat>)
    ensures ids <= users.Keys
    ensures forall id :: id in ids <==> id in users && users[id].email == email
  {
    set id | id in users && users[id].email == email
  }

  /** No two rows share an email. */
  predicate EmailsUnique(users: map<nat, User>)
  {
    forall a, b :: a in users && b in users && users[a].email == users[b].email ==> a == b
  }

  /** What `User.objects.get(email=email)` finds. */
  datatype Lookup =
    | NoUser         // raises DoesNotExist
    | SeveralUsers   // raises MultipleObjectsReturned
    | OneUser(pk: nat, user: User)

  lemma SingletonMember(s: set<nat>, x: nat)
    requires |s| == 1 && x in s
    ensures s == {x}
  {
    assert |s - {x}| == 0;
  }

  /** `User.objects.get(email=email)`. */
  function UserByEmail(users: map<nat, User>, email: string): (r: Lookup)
    ensures r.NoUser? <==> forall id :: id in users ==> users[id].email != email
    ensures r.OneUser? <==> |UsersWithEmail(users, email)| == 1
    ensures r.OneUser? ==> r.pk in users && users[r.pk] == r.user && r.user.email == email
    ensures r.OneUser? ==> forall id :: id in users && users[id].email == email ==> id == r.pk
    ensures EmailsUnique(users) ==> !r.SeveralUsers?
  {
    var ids := UsersWithEmail(users, email);
    if |ids| == 0 then
      assert forall id :: id in users ==> id !in ids;
      NoUser
    else if |ids| == 1 then
      var id :| id in ids;
      SingletonMember(ids, id);
      OneUser(id, users[id])
    else
      SeveralOwners(users, email, ids);
      SeveralUsers
  }

  lemma SeveralOwners(users: map<nat, User>, email: string, ids: set<nat>)
    requires ids == UsersWithEmail(users, email) && |ids| > 1
    ensures !EmailsUnique(users)
  {
    var a :| a in ids;
    assert |ids - {a}| > 0;
    var b :| b in ids - {a};
  }

  /** The table keys each row under its own id. */
  predicate KeyedById(users: map<nat, User>)
  {
    forall id :: id in users ==> users[id].id == id
  }

  /** The fields the registration form submits. */
  datatype Registration = Registration(email: string, password: string, confirmedPassword: string)

  /**
   * `RegistrationSerializer.validate_confirmed_password`: a mismatch is
   * rejected only when the submitted password and the confirmation are both
   * non-empty; a missing password (`initial_data.get` gives None) passes.
   */
  function ValidateConfirmedPassword(password: Option<string>, value: string): (v: Verdict)
    ensures v.Rejected? <==> password.Some? && password.value != "" && value != "" && password.value != value
    ensures v.Rejected? ==> v.message == CheckEntriesMessage
  {
    if password.Some? && password.value != "" && value != "" && password.value != value then
      Rejected(CheckEntriesMessage)
    else
      Accepted
  }

  /** `RegistrationSerializer.validate_email`: rejected when any row already has this email. */
  function ValidateEmail(users: map<nat, User>, value: string): (v: Verdict)
    ensures v.Rejected? <==> exists id :: id in users && users[id].email == value
    ensures v.Rejected? ==> v.message == CheckEntriesMessage
  {
    if UsersWithEmail(users, value) != {} then
      assert exists id :: id in UsersWithEmail(users, value);
      Rejected(CheckEntriesMessage)
    else
      Accepted
  }

  /**
   * Both registration checks answer with the same message, so a rejected
   * form does not tell an existing email apart from a mistyped confirmation.
   */
  lemma RegistrationRejectionsAlike(users: map<nat, User>, data: Registration)
    ensures ValidateEmail(users, data.email).Rejected? && ValidateConfirmedPassword(Some(data.password), data.confirmedPassword).Rejected? ==>
      ValidateEmail(users, data.email) == ValidateConfirmedPassword(Some(data.password), data.confirmedPassword)
  {
  }

  /** The row `RegistrationSerializer.create` saves: username and email are the email, inactive. */
  function NewUser(id: nat, data: Registration): (u: User)
    ensures u.id == id && u.username == data.email && u.email == data.email
    ensures u.password == data.password && !u.isActive
  {
    User(id, data.email, data.email, data.password, false)
  }

  /** A registration that passed `validate_email` keeps emails unique. */
  lemma RegistrationKeepsEmailsUnique(users: map<nat, User>, id: nat, data: Registration)
    requires EmailsUnique(users) && id !in users
    requires ValidateEmail(users, data.email) == Accepted
    ensures EmailsUnique(users[id := NewUser(id, data)])
  {
    var after := users[id := NewUser(id, data)];
    forall a, b | a in after && b in after && after[a].email == after[b].email
      ensures a == b
    {
      if a != id && b != id {
        assert users[a].email == users[b].email;
      }
    }
  }

  /** What `LoginSerializer.validate` answers. */
  datatype LoginResult =
    | LoginRejected(message: string)
    | LoginCrashed                              // MultipleObjectsReturned propagates
    | LoggedIn(userId: nat, username: string)   // the `user` part of the response; tokens are not modelled

  /**
   * `LoginSerializer.validate`: look the user up by email, then check the
   * password, then check that the account is active.
   */
  function Login(users: map<nat, User>, email: string, password: string): (r: LoginResult)
    ensures r == LoginRejected(InvalidCredentialsMessage) <==>
      UserByEmail(users, email).NoUser? || (UserByEmail(users, email).OneUser? && UserByEmail(users, email).user.password != password)
    ensures r == LoginRejected(NotActivatedMessage) <==>
      UserByEmail(users, email).OneUser? && UserByEmail(users, email).user.password == password && !UserByEmail(users, email).user.isActive
    ensures r.LoggedIn? <==>
      UserByEmail(users, email).OneUser? && UserByEmail(users, email).user.password == password && UserByEmail(users, email).user.isActive
    ensures r.LoggedIn? ==> r.userId == UserByEmail(users, email).user.id && r.username == UserByEmail(users, email).user.username
    ensures r.LoginCrashed? <==> UserByEmail(users, email).SeveralUsers?
  {
    match UserByEmail(users, email)
    case NoUser => LoginRejected(InvalidCredentialsMessage)
    case SeveralUsers => LoginCrashed
    case OneUser(_, u) =>
      if u.password != password then LoginRejected(InvalidCredentialsMessage)
      else if !u.isActive then LoginRejected(NotActivatedMessage)
      else LoggedIn(u.id, u.username)
  }

  /**
   * An unknown email and a wrong password for a known one get the same
   * answer, and "not activated" is only ever told to someone who knows the
   * password.
   */
  lemma LoginDoesNotRevealAccounts(users: map<nat, User>, unknown: string, known: string, password: string)
    requires forall id :: id in users ==> users[id].email != unknown
    requires UserByEmail(users, known).OneUser? && UserByEmail(users, known).user.password != password
    ensures Login(users, unknown, password) == Login(users, known, password) == LoginRejected(InvalidCredentialsMessage)
    ensures forall p :: Login(users, known, p) == LoginRejected(NotActivatedMessage) ==> p == UserByEmail(users, known).user.password
  {
  }

  /** A freshly registered account can not log in, even with the right password, until it is activated. */
  lemma LoginAfterRegistration(users: map<nat, User>, id: nat, data: Registration, password: string)
    requires EmailsUnique(users) && id !in users
    requires ValidateEmail(users, data.email) == Accepted
    ensures var after := users[id := NewUser(id, data)];
      && (password == data.password ==> Login(after, data.email, password) == LoginRejected(NotActivatedMessage))
      && (password != data.password ==> Login(after, data.email, password) == LoginRejected(InvalidCredentialsMessage))
  {
    var after := users[id := NewUser(id, data)];
    RegistrationKeepsEmailsUnique(users, id, data);
    assert id in UsersWithEmail(after, data.email);
    var r := UserByEmail(after, data.email);
    assert r.OneUser? by {
      assert UsersWithEmail(after, data.email) == {id};
    }
  }

  /** `ConfirmPasswordSerializer.validate`: rejected exactly when the two entries differ. */
  function ConfirmPassword(newPassword: string, confirmPassword: string): (v: Verdict)
    ensures v.Rejected? <==> newPassword != confirmPassword
    ensures v.Rejected? ==> v.message == CheckEntriesMessage
  {
    if newPassword != confirmPassword then Rejected(CheckEntriesMessage) else Accepted
  }

  /** `force_bytes(pk)`: the ASCII bytes of the decimal form of the primary key. */
  function PkBytes(pk: nat): (bs: seq<Byte>)
    ensures |bs| == |NatToDecimal(pk)|
    ensures forall i :: 0 <= i < |bs| ==> bs[i] == NatToDecimal(pk)[i] as int
  {
    var s := NatToDecimal(pk);
    seq(|s|, i requires 0 <= i < |s| => s[i] as int)
  }

  /** `urlsafe_base64_encode(force_bytes(pk))`. */
  function EncodeUid(pk: nat): (uid: string)
    ensures '/' !in uid
  {
    Encode(PkBytes(pk))
  }

  /** `bytes.decode()` restricted to ASCII: every byte below 128 is the character with that code. */
  function AsciiText(bs: seq<Byte>): (r: Option<string>)
    ensures r.Some? <==> forall i :: 0 <= i < |bs| ==> bs[i] < 128
    ensures r.Some? ==> |r.value| == |bs| && forall i :: 0 <= i < |bs| ==> r.value[i] as int == bs[i]
  {
    if forall i :: 0 <= i < |bs| ==> bs[i] < 128 then Some(seq(|bs|, i requires 0 <= i < |bs| => bs[i] as char)) else None
  }

  /** The bytes of a non-empty run of ASCII digits: what `str(pk)` encodes to. */
  predicate AsciiDigits(bs: seq<Byte>)
  {
    |bs| > 0 && forall i :: 0 <= i < |bs| ==> '0' as int <= bs[i] <= '9' as int
  }

  /**
   * `urlsafe_base64_decode(uidb64).decode()` followed by the primary-key
   * conversion of `User.objects.get(pk=uid)`: None where those raise
   * (a malformed encoding, non-ASCII bytes, a key that is not a number).
   */
  function DecodeUid(uidb64: string): (r: Option<nat>)
    ensures r.Some? <==> Decode(uidb64).Some? && AsciiDigits(Decode(uidb64).value)
  {
    match Decode(uidb64)
    case None => None
    case Some(bs) =>
      match AsciiText(bs)
      case None => None
      case Some(s) => ParseDecimal(s)
  }

  /** The uid put into a link reads back as the primary key it was made from. */
  lemma UidRoundTrip(pk: nat)
    ensures DecodeUid(EncodeUid(pk)) == Some(pk)
  {
    var s := NatToDecimal(pk);
    RoundTrip(PkBytes(pk));
    assert forall i :: 0 <= i < |s| ==> s[i] as int < 128 by {
      assert forall i :: 0 <= i < |s| ==> IsDigit(s[i]);
    }
    var t := AsciiText(PkBytes(pk));
    assert t.Some?;
    assert forall i :: 0 <= i < |s| ==> t.value[i] == s[i];
    assert t.value == s;
    DecimalRoundTrip(pk);
  }

  /**
   * `pk=uid` lookup after decoding: the row of the decoded key, or None
   * where decoding raises or no such row exists (DoesNotExist).
   */
  function UserByUid(users: map<nat, User>, uidb64: string): (r: Option<User>)
    ensures r.Some? <==> DecodeUid(uidb64).Some? && DecodeUid(uidb64).value in users
    ensures r.Some? ==> r.value == users[DecodeUid(uidb64).value]
  {
    match DecodeUid(uidb64)
    case None => None
    case Some(pk) => if pk in users then Some(users[pk]) else None
  }

  /** The emailed uid of a row finds that row again. */
  lemma UserByOwnUid(users: map<nat, User>, pk: nat)
    requires pk in users
    ensures UserByUid(users, EncodeUid(pk)) == Some(users[pk])
  {
    UidRoundTrip(pk);
  }

  /** The answer of a token-gated change and the rows it leaves. */
  datatype Change = Change(result: Option<User>, users: map<nat, User>)

  /** A mail as `EmailMultiAlternatives` is given it (the HTML alternative is not modelled). */
  datatype Mail = Mail(subject: string, body: string, to: seq<string>)

  /** A link written into a mail body is contained in it. */
  lemma LinkInBody(head: string, link: string, tail: string)
    ensures Contains(head + link + tail, link)
  {
    assert link <= link + tail;
    assert head + link + tail == head + (link + tail);
    ContainsAfter(head, link + tail, link);
  }

  /**
   * The shape both mails share: an opening, the link on a line of its own
   * between blank lines, and a closing note.
   */
  function LinkMailBody(opening: string, link: string, closing: string): (body: string)
    ensures opening <= body
    ensures Contains(body, link)
    ensures Contains(body, "\n\n" + link + "\n\n")
  {
    var line := "\n\n" + link + "\n\n";
    LinkInBody(opening + "\n\n", link, "\n\n" + closing);
    LinkInBody(opening, line, closing);
    assert opening + "\n\n" + link + "\n\n" + closing == opening + line + closing;
    assert opening + "\n\n" + link + ("\n\n" + closing) == opening + line + closing;
    opening + line + closing
  }

  /** `/<route>/<uid>/<token>/`: the path of an emailed link. */
  function LinkPath(route: seq<string>, pk: nat, token: string): string
  {
    Join([""] + route + [EncodeUid(pk), token, ""], "/")
  }

  /** Joining a two-word route, a uid and a token gives `/<w1>/<w2>/<uid>/<token>/`. */
  lemma LinkPathOfTwo(w1: string, w2: string, pk: nat, token: string)
    ensures LinkPath([w1, w2], pk, token) == "/" + w1 + "/" + w2 + "/" + EncodeUid(pk) + "/" + token + "/"
  {
    var uid := EncodeUid(pk);
    assert [""] + [w1, w2] + [uid, token, ""] == ["", w1, w2, uid, token, ""];
    JoinOfTwoWordLink(w1, w2, uid, token);
  }

  lemma JoinOfTwoWordLink(w1: string, w2: string, uid: string, token: string)
    ensures Join(["", w1, w2, uid, token, ""], "/") == "/" + w1 + "/" + w2 + "/" + uid + "/" + token + "/"
  {
    var parts := ["", w1, w2, uid, token, ""];
    assert parts[5..] == [""];
    assert Join(parts[4..], "/") == token + "/" + "" by { assert parts[4..][1..] == parts[5..]; }
    assert Join(parts[3..], "/") == uid + "/" + Join(parts[4..], "/") by { assert parts[3..][1..] == parts[4..]; }
    assert Join(parts[2..], "/") == w2 + "/" + Join(parts[3..], "/") by { assert parts[2..][1..] == parts[3..]; }
    assert Join(parts[1..], "/") == w1 + "/" + Join(parts[2..], "/") by { assert parts[1..][1..] == parts[2..]; }
    assert Join(parts, "/") == "" + "/" + Join(parts[1..], "/");
  }

  /**
   * The path of an emailed link, `/<route>/<uid>/<token>/`, splits into the
   * route words, the uid and the token, and the uid part decodes to the
   * primary key: the view the link leads to finds the row it was made for.
   */
  lemma {:induction false} LinkCarriesKey(route: seq<string>, pk: nat, token: string)
    requires forall i :: 0 <= i < |route| ==> '/' !in route[i]
    requires '/' !in token
    ensures var parts := [""] + route + [EncodeUid(pk), token, ""];
      && Split(LinkPath(route, pk, token)) == parts
      && DecodeUid(parts[|route| + 1]) == Some(pk)
  {
    var parts := [""] + route + [EncodeUid(pk), token, ""];
    assert forall i :: 0 <= i < |parts| ==> '/' !in parts[i] by {
      forall i | 0 <= i < |parts|
        ensures '/' !in parts[i]
      {
        if 1 <= i <= |route| {
          assert parts[i] == route[i - 1];
        }
      }
    }
    SplitJoin(parts);
    UidRoundTrip(pk);
  }

  /**
   * The user table. Rows are keyed by their id; new rows get the next id
   * of the auto-increment counter.
   */
  class UserTable {
    var users: map<nat, User>
    var nextId: nat

    ghost predicate Valid()
      reads this
    {
      KeyedById(users) && forall id :: id in users ==> id < nextId
    }

    constructor (users: map<nat, User>, nextId: nat)
      requires KeyedById(users) && forall id :: id in users ==> id < nextId
      ensures Valid() && this.users == users && this.nextId == nextId
    {
      this.users := users;
      this.nextId := nextId;
    }

    /**
     * `RegistrationSerializer.create`: drops the confirmation and saves one
     * new inactive row whose username and email are the submitted email.
     */
    method Create(data: Registration) returns (user: User)
      requires Valid()
      modifies this
      ensures Valid()
      ensures user == NewUser(old(nextId), data) && user.id !in old(users)
      ensures users == old(users)[user.id := user] && nextId == old(nextId) + 1
    {
      user := NewUser(nextId, data);
      users := users[nextId := user];
      nextId := nextId + 1;
    }

    /** `user.save()` of a changed row. */
    method Save(user: User)
      requires Valid() && user.id in users
      modifies this
      ensures Valid() && users == old(users)[user.id := user] && nextId == old(nextId)
    {
      users := users[user.id := user];
    }
  }
}
