/** User registration and login. Registration runs a fixed chain of checks on
    the request body, each with its own 400 message, then refuses an e-mail
    that is already registered, and finally stores the user with a bcrypt
    digest of the password and answers with a 12-hour token. Login looks the
    user up by e-mail and compares the password, answering both kinds of
    failure with the same message. */
module AuthController {
  import opened Wrappers
  import opened Seqs
  import opened Text
  import opened Credentials
  import opened Store
  import opened EmailPattern

  /** The fields `registerUser` reads from the request body; `""` stands for a
      field that is absent, null or empty (all three are falsy). */
  datatype Registration = Registration(Fullname: string, Email: string, Password: string, Phone: string)

  /** The validation checks, in the order they run. */
  datatype Check = AllFields | NameLength | EmailFormat | PhoneFormat | PasswordLength

  function Rank(c: Check): nat {
    match c
    case AllFields => 0
    case NameLength => 1
    case EmailFormat => 2
    case PhoneFormat => 3
    case PasswordLength => 4
  }

  /** `/^[0-9]{10}$/.test(phone)`. */
  predicate MatchesPhone(p: string) { |p| == 10 && AllDigits(p) }

  /** Whether a registration passes one check, taken on its own. */
  predicate Passes(c: Check, r: Registration) {
    match c
    case AllFields => r.Fullname != "" && r.Email != "" && r.Password != "" && r.Phone != ""
    case NameLength => Utf16Length(Trim(r.Fullname)) >= 3
    case EmailFormat => MatchesEmail(r.Email)
    case PhoneFormat => MatchesPhone(r.Phone)
    case PasswordLength => Utf16Length(r.Password) >= 8
  }

  /** The 400 message each check answers with. */
  function Message(c: Check): string {
    match c
    case AllFields => "All fields (Fullname, Email, Password, Phone) are required"
    case NameLength => "Full name must be at least 3 characters long"
    case EmailFormat => "Please provide a valid email address"
    case PhoneFormat => "Phone number must be exactly 10 digits"
    case PasswordLength => "Password must be at least 8 characters long"
  }

  /** The validation chain: the first check that fails, or None when all pass. */
  function Validate(r: Registration): (failed: Option<Check>)
    ensures failed.None? <==> forall c: Check :: Passes(c, r)
    ensures failed.Some? ==> !Passes(failed.value, r)
    ensures failed.Some? ==> forall c: Check :: Rank(c) < Rank(failed.value) ==> Passes(c, r)
  {
    if !Passes(AllFields, r) then Some(AllFields)
    else if !Passes(NameLength, r) then Some(NameLength)
    else if !Passes(EmailFormat, r) then Some(EmailFormat)
    else if !Passes(PhoneFormat, r) then Some(PhoneFormat)
    else if !Passes(PasswordLength, r) then Some(PasswordLength)
    else None
  }

  /** The user as the registration response shows it: no password. */
  datatype PublicUser = PublicUser(id: string, Email: string, Fullname: string, Phone: string)

  datatype RegisterReply =
    | RegisterRejected(status: int, message: string)
    | Registered(status: int, message: string, token: Token, cookie: string, user: PublicUser)

  const DuplicateMessage := "User already exists with this email, Please login"

  predicate HasEmail(u: User, email: string) { u.Email == email }

  /** `registerUser`. `freshId` is the id the database gives the new document
      and `salt` the salt bcrypt draws. */
  method RegisterUser(users: UserStore, r: Registration, freshId: string, salt: string)
    returns (reply: RegisterReply)
    requires users.Valid()
    requires forall i :: 0 <= i < |users.docs| ==> users.docs[i].id != freshId
    modifies users
    ensures users.Valid()
    ensures Validate(r).Some? ==>
              reply == RegisterRejected(400, Message(Validate(r).value)) && users.docs == old(users.docs)
    ensures Validate(r).None? && Count(old(users.docs), u => HasEmail(u, r.Email)) > 0 ==>
              reply == RegisterRejected(400, DuplicateMessage) && users.docs == old(users.docs)
              && Count(users.docs, u => HasEmail(u, r.Email)) == 1
    ensures Validate(r).None? && Count(old(users.docs), u => HasEmail(u, r.Email)) == 0 ==>
              users.docs == old(users.docs) + [User(freshId, r.Fullname, r.Email, r.Phone, Hash(r.Password, salt), [])]
              && reply == Registered(201, "User registered successfully", Sign(freshId), "token",
                                     PublicUser(freshId, r.Email, r.Fullname, r.Phone))
  {
    var failed := Validate(r);
    if failed.Some? {
      return RegisterRejected(400, Message(failed.value));
    }
    reply := StoreRegistration(users, r, freshId, salt);
  }

  /** The part of `registerUser` after validation: refuse a registered
      e-mail, otherwise store the user and sign a token. */
  method StoreRegistration(users: UserStore, r: Registration, freshId: string, salt: string)
    returns (reply: RegisterReply)
    requires users.Valid()
    requires forall i :: 0 <= i < |users.docs| ==> users.docs[i].id != freshId
    modifies users
    ensures users.Valid()
    ensures Count(old(users.docs), u => HasEmail(u, r.Email)) > 0 ==>
              reply == RegisterRejected(400, DuplicateMessage) && users.docs == old(users.docs)
              && Count(users.docs, u => HasEmail(u, r.Email)) == 1
    ensures Count(old(users.docs), u => HasEmail(u, r.Email)) == 0 ==>
              users.docs == old(users.docs) + [User(freshId, r.Fullname, r.Email, r.Phone, Hash(r.Password, salt), [])]
              && reply == Registered(201, "User registered successfully", Sign(freshId), "token",
                                     PublicUser(freshId, r.Email, r.Fullname, r.Phone))
  {
    var existing := FirstIndex(users.docs, u => HasEmail(u, r.Email));
    if existing.Some? {
      UniqueEmailCount(users.docs, existing.value);
      return RegisterRejected(400, DuplicateMessage);
    }
    var hashed := Hash(r.Password, salt);
    var created := User(freshId, r.Fullname, r.Email, r.Phone, hashed, []);
    AppendFresh(users.docs, UserId, created);
    users.docs := users.docs + [created];
    var token := Sign(created.id);
    reply := Registered(201, "User registered successfully", token, "token",
                        PublicUser(created.id, r.Email, r.Fullname, r.Phone));
  }

  /** With e-mails unique, the address of a stored user is held by that user alone. */
  lemma UniqueEmailCount(docs: seq<User>, k: nat)
    requires k < |docs|
    requires forall i, j :: 0 <= i < j < |docs| ==> docs[i].Email != docs[j].Email
    ensures Count(docs, u => HasEmail(u, docs[k].Email)) == 1
  {
    var p := (u: User) => HasEmail(u, docs[k].Email);
    forall j | 0 <= j < |docs| && j != k ensures !p(docs[j]) {
      if j < k {
        assert docs[j].Email != docs[k].Email;
      } else {
        assert docs[k].Email != docs[j].Email;
      }
    }
    CountOnly(docs, p, k);
  }

  /** The user as the login response shows it: no password, no phone. */
  datatype LoginView = LoginView(id: string, Email: string, Fullname: string)

  datatype LoginReply =
    | LoginRejected(status: int, message: string)
    | LoggedIn(status: int, message: string, token: Token, cookie: string, user: LoginView)
      /** `bcrypt.compare` throws on a missing password and the handler has no
          `catch`, so the request gets no answer. */
    | NoAnswer

  const LoginFailure := "Invalid Email or Password..."

  /** `loginUser`; `password` is None when the body has none. */
  function LoginUser(docs: seq<User>, email: string, password: Option<string>): (reply: LoginReply)
    ensures reply.LoggedIn? ==>
              exists i :: 0 <= i < |docs| && docs[i].Email == email && password.Some? && Compare(password.value, docs[i].Password)
                && reply.token == Sign(docs[i].id) && reply.user == LoginView(docs[i].id, docs[i].Email, docs[i].Fullname)
  {
    match FirstIndex(docs, u => HasEmail(u, email))
    case None => LoginRejected(400, LoginFailure)
    case Some(i) =>
      match password
      case None => NoAnswer
      case Some(p) =>
        if !Compare(p, docs[i].Password) then LoginRejected(400, LoginFailure)
        else LoggedIn(200, "User logged in successfully", Sign(docs[i].id), "token",
                      LoginView(docs[i].id, docs[i].Email, docs[i].Fullname))
  }

  /** An unknown e-mail and a wrong password get the very same answer. */
  lemma LoginFailsUniformly(docs: seq<User>, email: string, password: string)
    requires forall i, j :: 0 <= i < j < |docs| ==> docs[i].Email != docs[j].Email
    requires forall i :: 0 <= i < |docs| && docs[i].Email == email ==> !Compare(password, docs[i].Password)
    ensures LoginUser(docs, email, Some(password)) == LoginRejected(400, LoginFailure)
  {
  }

  /** A password the stored digest accepts logs in as that user. */
  lemma LoginSucceeds(docs: seq<User>, k: nat, password: string)
    requires k < |docs| && Compare(password, docs[k].Password)
    requires forall i, j :: 0 <= i < j < |docs| ==> docs[i].Email != docs[j].Email
    ensures LoginUser(docs, docs[k].Email, Some(password)) ==
            LoggedIn(200, "User logged in successfully", Sign(docs[k].id), "token",
                     LoginView(docs[k].id, docs[k].Email, docs[k].Fullname))
  {
    var r := FirstIndex(docs, u => HasEmail(u, docs[k].Email));
    assert r.Some?;
    assert r.value == k;
  }

  /** Who just registered can log in with the same password. */
  lemma RegisterThenLogin(docs: seq<User>, r: Registration, freshId: string, salt: string)
    requires forall i :: 0 <= i < |docs| ==> docs[i].Email != r.Email
    requires forall i, j :: 0 <= i < j < |docs| ==> docs[i].Email != docs[j].Email
    ensures LoginUser(docs + [User(freshId, r.Fullname, r.Email, r.Phone, Hash(r.Password, salt), [])],
                      r.Email, Some(r.Password)).LoggedIn?
  {
    var d := docs + [User(freshId, r.Fullname, r.Email, r.Phone, Hash(r.Password, salt), [])];
    LoginSucceeds(d, |docs|, r.Password);
  }

  /** bcrypt reads only 72 bytes of a password: whoever registered with a
      long password can also log in with any other that shares those bytes. */
  lemma LoginWithSharedPrefix(docs: seq<User>, k: nat, salt: string, password: string, other: string)
    requires k < |docs| && docs[k].Password == Hash(password, salt)
    requires forall i, j :: 0 <= i < j < |docs| ==> docs[i].Email != docs[j].Email
    requires |Utf8(password)| >= KeyBytes && |Utf8(other)| >= KeyBytes
    requires Utf8(other)[..KeyBytes] == Utf8(password)[..KeyBytes]
    ensures LoginUser(docs, docs[k].Email, Some(other)) ==
            LoggedIn(200, "User logged in successfully", Sign(docs[k].id), "token",
                     LoginView(docs[k].id, docs[k].Email, docs[k].Fullname))
  {
    SharedPrefixAccepted(password, other, salt);
    LoginSucceeds(docs, k, other);
  }

  /** A registration every check accepts. */
  const Sample := Registration("Asha", "asha@mail.com", "secret123", "9876543210")

  lemma SamplePhone()
    ensures MatchesPhone("9876543210")
  {
    forall i | 0 <= i < 10 ensures IsDigit("9876543210"[i]) {
      if i < 5 { } else { }
    }
  }

  lemma SampleName()
    ensures Utf16Length(Trim("Asha")) >= 3
  {
    TrimNoSpace("Asha");
  }

  lemma SampleValid()
    ensures Validate(Sample) == None
  {
    SampleName();
    AcceptsPlainAddress();
    SamplePhone();
    assert Passes(NameLength, Sample);
    assert Passes(EmailFormat, Sample);
    assert Passes(PhoneFormat, Sample);
  }

  /** The examples the checks are meant to catch, each by its own message. */
  lemma RejectsMissingField()
    ensures Validate(Sample.(Fullname := "")) == Some(AllFields)
  {
  }

  lemma RejectsShortName()
    ensures Validate(Sample.(Fullname := "Al")) == Some(NameLength)
  {
    TrimNoSpace("Al");
  }

  lemma RejectsBadEmail()
    ensures Validate(Sample.(Email := "not-an-email")) == Some(EmailFormat)
  {
    SampleValid();
    RejectsWithoutAt();
  }

  lemma RejectsShortPhone()
    ensures Validate(Sample.(Phone := "12345")) == Some(PhoneFormat)
  {
    SampleValid();
  }

  lemma RejectsShortPassword()
    ensures Validate(Sample.(Password := "short1")) == Some(PasswordLength)
  {
    assert forall i :: 0 <= i < |"short1"| ==> "short1"[i] as int < 0x10000;
    Utf16LengthBmp("short1");
    SampleFieldsPass(Sample.(Password := "short1"));
    DecidedByPassword(Sample.(Password := "short1"));
  }

  /** `.length` counts UTF-16 code units: four emoji make an eight-unit
      password, and two make a name of four. */
  lemma AcceptsAstralPassword()
    ensures Validate(Sample.(Password := "\U{1F600}\U{1F600}\U{1F600}\U{1F600}")) == None
  {
    var p := "\U{1F600}\U{1F600}\U{1F600}\U{1F600}";
    Utf16LengthAstral(p);
    SampleFieldsPass(Sample.(Password := p));
    DecidedByPassword(Sample.(Password := p));
  }

  /** The sample's name, e-mail and phone pass their checks for any password. */
  lemma SampleFieldsPass(r: Registration)
    requires r.Fullname == Sample.Fullname && r.Email == Sample.Email && r.Phone == Sample.Phone
    ensures Passes(NameLength, r) && Passes(EmailFormat, r) && Passes(PhoneFormat, r)
  {
    SampleName();
    AcceptsPlainAddress();
    SamplePhone();
  }

  /** Once the first four checks pass, the password check decides. */
  lemma DecidedByPassword(r: Registration)
    requires Passes(AllFields, r) && Passes(NameLength, r) && Passes(EmailFormat, r) && Passes(PhoneFormat, r)
    ensures Validate(r) == if Passes(PasswordLength, r) then None else Some(PasswordLength)
  {
  }

  lemma AcceptsAstralName()
    ensures Passes(NameLength, Sample.(Fullname := "\U{1F600}\U{1F600}"))
  {
    TrimNoSpace("\U{1F600}\U{1F600}");
    Utf16LengthAstral("\U{1F600}\U{1F600}");
  }
}
