/**
 * The account views' server-side rules: registration and profile-update
 * validation as an ordered accumulation of error messages, and the user table
 * those views add to and update. The ORM's user table is an in-memory
 * sequence of records; case-insensitive lookups (`__iexact`) compare the
 * ASCII-lower-cased texts.
 */
module Accounts {
  import opened Text
  import opened Wrappers

  /** A row of the user table (the password hash is not modelled). */
  datatype User = User(id: nat, name: string, username: string, email: string, role: string)

  /** The POST fields of the registration form; an absent `role` or `terms` is None. */
  datatype Registration = Registration(
    name: string, username: string, email: string, password: string,
    confirmPassword: string, role: Option<string>, terms: Option<string>)

  /** The POST fields of the profile form. */
  datatype ProfileEdit = ProfileEdit(name: string, username: string, email: string)

  /**
   * The error messages the two views can flash. `loginUrl` is what
   * `build_absolute_uri("/login/")` gives for the request.
   */
  datatype Message =
    | AllFieldsRequired
    | PasswordsDiffer
    | PasswordTooShort
    | TermsNotAccepted
    | UsernameTaken(username: string)
    | EmailTaken(email: string, loginUrl: string)
    | UsernameTakenByOther(username: string)
    | EmailTakenByOther(email: string)
    | UsernameTooShort
    | UsernameBadChars
    | EmailInvalid

  /** The text each message is shown with. */
  function MessageText(m: Message): string
  {
    match m
    case AllFieldsRequired => "All fields are required."
    case PasswordsDiffer => "Passwords do not match."
    case PasswordTooShort => "Password must be at least 8 characters long."
    case TermsNotAccepted => "You must accept the terms and conditions."
    case UsernameTaken(u) => "Username \"" + u + "\" is already taken. Please choose a different username."
    case EmailTaken(e, loginUrl) =>
      "Email \"" + e + "\" is already registered. Please use a different email address or <a href=\"" +
      loginUrl + "\" class=\"text-primary-custom\">login here</a>."
    case UsernameTakenByOther(u) => "Username \"" + u + "\" is already taken by another user."
    case EmailTakenByOther(e) => "Email \"" + e + "\" is already registered by another user."
    case UsernameTooShort => "Username must be at least 3 characters long."
    case UsernameBadChars => "Username can only contain letters, numbers, hyphens, and underscores."
    case EmailInvalid => "Please enter a valid email address."
  }

  /** One validation step: whether it fails, and the message it then adds. */
  datatype Check = Check(fails: bool, message: Message)

  /** The messages one check contributes: its own when it fails, none otherwise. */
  function Item(c: Check): (r: seq<Message>)
    ensures r == [] <==> !c.fails
    ensures c.fails ==> r == [c.message]
  {
    if c.fails then [c.message] else []
  }

  /**
   * One step of a validator, `if <check fails>: errors.append(<message>)`:
   * the list grows by the check's message exactly when the check fails.
   */
  method Note(errors: seq<Message>, c: Check) returns (r: seq<Message>)
    ensures r == errors + Item(c)
  {
    r := errors;
    if c.fails {
      r := r + [c.message];
    }
  }

  /** Django's `__iexact`: equal once case is ignored. */
  predicate SameIgnoringCase(a: string, b: string)
  {
    Lower(a) == Lower(b)
  }

  predicate UsernameInUse(users: seq<User>, username: string)
  {
    exists i :: 0 <= i < |users| && SameIgnoringCase(users[i].username, username)
  }

  predicate EmailInUse(users: seq<User>, email: string)
  {
    exists i :: 0 <= i < |users| && SameIgnoringCase(users[i].email, email)
  }

  /** The same lookups with the current user's own row excluded (`.exclude(id=user.id)`). */
  predicate UsernameInUseByOther(users: seq<User>, selfId: nat, username: string)
  {
    exists i :: 0 <= i < |users| && users[i].id != selfId && SameIgnoringCase(users[i].username, username)
  }

  predicate EmailInUseByOther(users: seq<User>, selfId: nat, email: string)
  {
    exists i :: 0 <= i < |users| && users[i].id != selfId && SameIgnoringCase(users[i].email, email)
  }

  /** `username.replace('_', '').replace('-', '').isalnum()`. */
  predicate UsernameCharsOk(username: string)
  {
    IsAlnum(Remove(Remove(username, '_'), '-'))
  }

  /** `'@' in email and '.' in email.split('@')[-1]`. */
  predicate EmailOk(email: string)
  {
    '@' in email && '.' in Last(Split(email, '@'))
  }

  /** A POST field is truthy: present and not the empty string. */
  predicate Given(field: Option<string>)
  {
    field.Some? && field.value != ""
  }

  /**
   * The messages of the checks both views end with, on the submitted username
   * and email: the username's length, its characters, and the email's shape.
   */
  function FormatErrors(username: string, email: string): seq<Message>
  {
    Item(Check(|username| < 3, UsernameTooShort)) +
    Item(Check(!UsernameCharsOk(username), UsernameBadChars)) +
    Item(Check(!EmailOk(email), EmailInvalid))
  }

  predicate FormatOk(username: string, email: string)
  {
    |username| >= 3 && UsernameCharsOk(username) && EmailOk(email)
  }

  /** The format checks add nothing exactly when the username and email are well formed. */
  lemma FormatErrorsEmptyIff(username: string, email: string)
    ensures FormatErrors(username, email) == [] <==> FormatOk(username, email)
    ensures |FormatErrors(username, email)| <= 3
  {
  }

  /** The closing block both views share: each failing format check appends its message, in order. */
  method ValidateFormat(errors: seq<Message>, username: string, email: string) returns (r: seq<Message>)
    ensures r == errors + FormatErrors(username, email)
  {
    r := Note(errors, Check(|username| < 3, UsernameTooShort));
    var charsOk := UsernameCharsOk(username);
    r := Note(r, Check(!charsOk, UsernameBadChars));
    var emailOk := EmailOk(email);
    r := Note(r, Check(!emailOk, EmailInvalid));
    assert r == errors + (Item(Check(|username| < 3, UsernameTooShort)) + Item(Check(!charsOk, UsernameBadChars))
                          + Item(Check(!emailOk, EmailInvalid)));
  }

  /** The messages of the registration view's first four checks, on the form alone. */
  function EntryErrors(r: Registration): seq<Message>
  {
    Item(Check(r.name == "" || r.username == "" || r.email == "" || r.password == "" || r.confirmPassword == "",
               AllFieldsRequired)) +
    Item(Check(r.password != r.confirmPassword, PasswordsDiffer)) +
    Item(Check(|r.password| < 8, PasswordTooShort)) +
    Item(Check(!Given(r.terms), TermsNotAccepted))
  }

  predicate EntryOk(r: Registration)
  {
    r.name != "" && r.username != "" && r.email != "" && r.password != "" &&
    r.password == r.confirmPassword && |r.password| >= 8 && Given(r.terms)
  }

  /** The messages of the registration view's nine checks, in the order it runs them. */
  function RegistrationErrors(r: Registration, users: seq<User>, loginUrl: string): seq<Message>
  {
    EntryErrors(r) +
    Item(Check(UsernameInUse(users, r.username), UsernameTaken(r.username))) +
    Item(Check(EmailInUse(users, r.email), EmailTaken(r.email, loginUrl))) +
    FormatErrors(r.username, r.email)
  }

  /** What a registration must satisfy to be accepted, stated on its own. */
  predicate RegistrationAcceptable(r: Registration, users: seq<User>)
  {
    EntryOk(r) && !UsernameInUse(users, r.username) && !EmailInUse(users, r.email) && FormatOk(r.username, r.email)
  }

  /** The first four checks add nothing exactly when the form is complete, confirmed, long enough and agreed. */
  lemma EntryErrorsEmptyIff(r: Registration)
    ensures EntryErrors(r) == [] <==> EntryOk(r)
    ensures |EntryErrors(r)| <= 4
  {
  }

  /**
   * The registration is refused, with at least one message, exactly when it is
   * not acceptable; there are never more messages than checks.
   */
  lemma RegistrationErrorsEmptyIff(r: Registration, users: seq<User>, loginUrl: string)
    ensures RegistrationErrors(r, users, loginUrl) == [] <==> RegistrationAcceptable(r, users)
    ensures |RegistrationErrors(r, users, loginUrl)| <= 9
  {
    EntryErrorsEmptyIff(r);
    FormatErrorsEmptyIff(r.username, r.email);
  }

  /**
   * The validation block of `register`: each failing check appends its
   * message, in check order.
   */
  method ValidateRegistration(r: Registration, users: seq<User>, loginUrl: string) returns (errors: seq<Message>)
    ensures errors == RegistrationErrors(r, users, loginUrl)
  {
    var missing := r.name == "" || r.username == "" || r.email == "" || r.password == "" || r.confirmPassword == "";
    errors := Note([], Check(missing, AllFieldsRequired));
    errors := Note(errors, Check(r.password != r.confirmPassword, PasswordsDiffer));
    errors := Note(errors, Check(|r.password| < 8, PasswordTooShort));
    errors := Note(errors, Check(!Given(r.terms), TermsNotAccepted));
    assert [] + Item(Check(missing, AllFieldsRequired)) == Item(Check(missing, AllFieldsRequired));
    var usernameInUse := UsernameInUse(users, r.username);
    errors := Note(errors, Check(usernameInUse, UsernameTaken(r.username)));
    var emailInUse := EmailInUse(users, r.email);
    errors := Note(errors, Check(emailInUse, EmailTaken(r.email, loginUrl)));
    errors := ValidateFormat(errors, r.username, r.email);
  }

  /** The messages of the profile update's six checks, in the order the view runs them. */
  function ProfileErrors(e: ProfileEdit, users: seq<User>, selfId: nat): seq<Message>
  {
    Item(Check(e.name == "" || e.username == "" || e.email == "", AllFieldsRequired)) +
    Item(Check(UsernameInUseByOther(users, selfId, e.username), UsernameTakenByOther(e.username))) +
    Item(Check(EmailInUseByOther(users, selfId, e.email), EmailTakenByOther(e.email))) +
    FormatErrors(e.username, e.email)
  }

  /** What a profile edit must satisfy to be saved, stated on its own. */
  predicate ProfileEditAcceptable(e: ProfileEdit, users: seq<User>, selfId: nat)
  {
    e.name != "" && e.username != "" && e.email != "" &&
    !UsernameInUseByOther(users, selfId, e.username) && !EmailInUseByOther(users, selfId, e.email) &&
    FormatOk(e.username, e.email)
  }

  /** The profile edit is refused, with at least one message, exactly when it is not acceptable. */
  lemma ProfileErrorsEmptyIff(e: ProfileEdit, users: seq<User>, selfId: nat)
    ensures ProfileErrors(e, users, selfId) == [] <==> ProfileEditAcceptable(e, users, selfId)
    ensures |ProfileErrors(e, users, selfId)| <= 6
  {
    FormatErrorsEmptyIff(e.username, e.email);
  }

  /** The validation block of `profile_view`, with the user's own row excluded from the uniqueness checks. */
  method ValidateProfileEdit(e: ProfileEdit, users: seq<User>, selfId: nat) returns (errors: seq<Message>)
    ensures errors == ProfileErrors(e, users, selfId)
  {
    var missing := e.name == "" || e.username == "" || e.email == "";
    errors := Note([], Check(missing, AllFieldsRequired));
    assert [] + Item(Check(missing, AllFieldsRequired)) == Item(Check(missing, AllFieldsRequired));
    var usernameInUse := UsernameInUseByOther(users, selfId, e.username);
    errors := Note(errors, Check(usernameInUse, UsernameTakenByOther(e.username)));
    var emailInUse := EmailInUseByOther(users, selfId, e.email);
    errors := Note(errors, Check(emailInUse, EmailTakenByOther(e.email)));
    errors := ValidateFormat(errors, e.username, e.email);
  }

  /**
   * Characterisation of the server's username rule: after the '_' and '-'
   * are taken out, what remains must be non-empty letters and digits; so the
   * username may hold only letters, digits, '_' and '-', and at least one
   * letter or digit.
   */
  lemma UsernameCharsOkIff(username: string)
    ensures UsernameCharsOk(username) <==>
              (forall i :: 0 <= i < |username| ==> IsAsciiAlnum(username[i]) || username[i] == '_' || username[i] == '-') &&
              (exists i :: 0 <= i < |username| && IsAsciiAlnum(username[i]))
  {
    var r := Remove(Remove(username, '_'), '-');
    RemoveMembers(username, '_');
    RemoveMembers(Remove(username, '_'), '-');
    if UsernameCharsOk(username) {
      forall i | 0 <= i < |username|
        ensures IsAsciiAlnum(username[i]) || username[i] == '_' || username[i] == '-'
      {
        var c := username[i];
        if c != '_' && c != '-' {
          assert c in r;
          var j :| 0 <= j < |r| && r[j] == c;
        }
      }
      assert r[0] in username;
      var j :| 0 <= j < |username| && username[j] == r[0];
    }
    if (forall i :: 0 <= i < |username| ==> IsAsciiAlnum(username[i]) || username[i] == '_' || username[i] == '-') &&
       (exists i :: 0 <= i < |username| && IsAsciiAlnum(username[i])) {
      var i :| 0 <= i < |username| && IsAsciiAlnum(username[i]);
      assert username[i] in r;
      forall j | 0 <= j < |r| ensures IsAsciiAlnum(r[j]) {
        assert r[j] in username;
      }
    }
  }

  /** A username made only of '_' and '-' (such as "___") is refused by the server's charset rule. */
  lemma SeparatorOnlyUsernameRejected(username: string)
    requires forall i :: 0 <= i < |username| ==> username[i] == '_' || username[i] == '-'
    ensures !UsernameCharsOk(username)
  {
    UsernameCharsOkIff(username);
  }

  /** The server's email rule looks only past the last '@': there must be a '.' after it. */
  lemma EmailOkAfterLastAt(email: string, j: nat)
    requires j < |email| && email[j] == '@' && '@' !in email[j + 1..]
    ensures EmailOk(email) <==> '.' in email[j + 1..]
  {
    LastPieceAfter(email, '@', j);
  }

  /** No two users share a username or an email address, ignoring case, and ids are distinct and below `nextId`. */
  ghost predicate DistinctAccounts(users: seq<User>, nextId: nat)
  {
    (forall i :: 0 <= i < |users| ==> users[i].id < nextId) &&
    (forall i, j :: 0 <= i < j < |users| ==>
       users[i].id != users[j].id &&
       !SameIgnoringCase(users[i].username, users[j].username) &&
       !SameIgnoringCase(users[i].email, users[j].email))
  }

  /** Adding a user whose username and email are not in use, with the next id, keeps the accounts distinct. */
  lemma AddKeepsDistinct(users: seq<User>, nextId: nat, u: User)
    requires DistinctAccounts(users, nextId) && u.id == nextId
    requires !UsernameInUse(users, u.username) && !EmailInUse(users, u.email)
    ensures DistinctAccounts(users + [u], nextId + 1)
  {
    var s := users + [u];
    forall i, j | 0 <= i < j < |s|
      ensures s[i].id != s[j].id && !SameIgnoringCase(s[i].username, s[j].username) &&
              !SameIgnoringCase(s[i].email, s[j].email)
    {
      if j == |users| {
        assert s[i] == users[i];
      }
    }
  }

  /**
   * Rewriting the name, username and email of row `k`, when no other row uses
   * the new username or email, keeps the accounts distinct.
   */
  lemma ReplaceKeepsDistinct(users: seq<User>, nextId: nat, k: nat, u: User)
    requires DistinctAccounts(users, nextId) && k < |users| && u.id == users[k].id
    requires !UsernameInUseByOther(users, u.id, u.username) && !EmailInUseByOther(users, u.id, u.email)
    ensures DistinctAccounts(users[k := u], nextId)
  {
    var s := users[k := u];
    forall i, j | 0 <= i < j < |s|
      ensures s[i].id != s[j].id && !SameIgnoringCase(s[i].username, s[j].username) &&
              !SameIgnoringCase(s[i].email, s[j].email)
    {
      if i == k {
        assert users[j].id != u.id;
      } else if j == k {
        assert users[i].id != u.id;
      }
    }
  }

  /** The data the registration form is re-rendered with after a failed attempt. */
  datatype FormData = FormData(name: string, username: string, email: string, role: string)

  /** What `register` answers: the form (with messages and preserved input), or a redirect home after creating the user. */
  datatype RegisterResult =
    | RegisterForm(errors: seq<Message>, formData: Option<FormData>)
    | RedirectHome(userId: nat, welcome: string)

  /** What `profile_view` answers before its statistics: the login redirect, the profile page with messages, or the redirect after saving. */
  datatype ProfileResult = RedirectLogin | ProfilePage(errors: seq<Message>) | RedirectProfile

  function WelcomeText(name: string): string
  {
    "Welcome to SnapNShop, " + name + "! Your account has been created successfully."
  }

  function IndexFrom(users: seq<User>, id: nat): (k: nat)
    requires exists i :: 0 <= i < |users| && users[i].id == id
    ensures k < |users| && users[k].id == id
  {
    if users[0].id == id then 0
    else
      assert exists i :: 0 <= i < |users[1..]| && users[1..][i].id == id by {
        var i :| 0 <= i < |users| && users[i].id == id;
        assert users[1..][i - 1] == users[i];
      }
      1 + IndexFrom(users[1..], id)
  }

  /** The user table. */
  class UserStore {
    var users: seq<User>
    var nextId: nat

    ghost predicate Valid()
      reads this
    {
      DistinctAccounts(users, nextId)
    }

    constructor ()
      ensures Valid() && users == [] && nextId == 0
    {
      users := [];
      nextId := 0;
    }

    /**
     * `register`: a GET renders the blank form; a POST with any failing check
     * re-renders the form with every message and the name, username, email and
     * role preserved, and creates nobody; otherwise exactly one user is added.
     */
    method Register(isPost: bool, r: Registration, loginUrl: string) returns (result: RegisterResult)
      requires Valid()
      modifies this
      ensures Valid()
      ensures nextId == if isPost && RegistrationAcceptable(r, old(users)) then old(nextId) + 1 else old(nextId)
      ensures !isPost ==> result == RegisterForm([], None) && users == old(users)
      ensures isPost && !RegistrationAcceptable(r, old(users)) ==>
                users == old(users) &&
                result == RegisterForm(RegistrationErrors(r, old(users), loginUrl),
                                       Some(FormData(r.name, r.username, r.email, r.role.GetOr("customer"))))
      ensures isPost && RegistrationAcceptable(r, old(users)) ==>
                users == old(users) + [User(old(nextId), r.name, r.username, r.email, r.role.GetOr("customer"))] &&
                result == RedirectHome(old(nextId), WelcomeText(r.name))
    {
      if !isPost {
        return RegisterForm([], None);
      }
      var role := if r.role.Some? then r.role.value else "customer";
      var errors := ValidateRegistration(r, users, loginUrl);
      RegistrationErrorsEmptyIff(r, users, loginUrl);
      if errors != [] {
        return RegisterForm(errors, Some(FormData(r.name, r.username, r.email, role)));
      }
      var user := User(nextId, r.name, r.username, r.email, role);
      AddKeepsDistinct(users, nextId, user);
      users := users + [user];
      nextId := nextId + 1;
      result := RedirectHome(user.id, WelcomeText(r.name));
    }

    /** The position of the row with id `id`. */
    function IndexOf(id: nat): (k: nat)
      reads this
      requires exists i :: 0 <= i < |users| && users[i].id == id
      ensures k < |users| && users[k].id == id
    {
      IndexFrom(users, id)
    }

    /**
     * The POST half of `profile_view`: an anonymous visitor is sent to the login
     * page; otherwise a failing check leaves the table as it was and shows the
     * messages, and a passing edit rewrites only the current user's row. The
     * uniqueness of usernames and emails is kept.
     */
    method UpdateProfile(current: Option<nat>, edit: Option<ProfileEdit>) returns (result: ProfileResult)
      requires Valid()
      requires current.Some? ==> exists i :: 0 <= i < |users| && users[i].id == current.value
      modifies this
      ensures Valid() && nextId == old(nextId)
      ensures current.None? ==> result == RedirectLogin && users == old(users)
      ensures current.Some? && edit.None? ==> result == ProfilePage([]) && users == old(users)
      ensures current.Some? && edit.Some? && !ProfileEditAcceptable(edit.value, old(users), current.value) ==>
                users == old(users) &&
                result == ProfilePage(ProfileErrors(edit.value, old(users), current.value))
      ensures current.Some? && edit.Some? && ProfileEditAcceptable(edit.value, old(users), current.value) ==>
                result == RedirectProfile &&
                var k := old(IndexOf(current.value));
                users == old(users)[k := User(current.value, edit.value.name, edit.value.username,
                                              edit.value.email, old(users)[k].role)]
    {
      if current.None? {
        return RedirectLogin;
      }
      var id := current.value;
      if edit.None? {
        return ProfilePage([]);
      }
      var e := edit.value;
      var errors := ValidateProfileEdit(e, users, id);
      ProfileErrorsEmptyIff(e, users, id);
      if errors != [] {
        return ProfilePage(errors);
      }
      var k := IndexOf(id);
      var updated := users[k].(name := e.name, username := e.username, email := e.email);
      ReplaceKeepsDistinct(users, nextId, k, updated);
      users := users[k := updated];
      result := RedirectProfile;
    }
  }
}
