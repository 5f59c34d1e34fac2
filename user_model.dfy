/** The User record (banka/backend/models/User.js): its fields, the role enum and
    defaults, the password validator, and the save hook that hashes a modified password. */
module UserModel {
  import opened Common
  import opened Patterns

  /** Stands for a user document's ObjectId. */
  type UserId = nat

  /** The role enum is `client` and `staff` only: `save()` refuses any other role, `admin` included. */
  datatype Role = Client | Staff

  function RoleName(r: Role): (name: string)
    ensures name != "admin"
    ensures name == "client" <==> r == Client
    ensures name == "staff" <==> r == Staff
  {
    match r
    case Client => "client"
    case Staff => "staff"
  }

  datatype User = User(
    id: UserId,
    email: string,
    password: string,  // plain text until the pre-save hook has run, a hash after it
    firstName: string,
    lastName: string,
    role: Role,
    isAdmin: bool)

  /** A new user record: `role` defaults to client and `isAdmin` to false. */
  function NewUser(id: UserId, email: string, password: string, firstName: string, lastName: string,
                   role: Option<Role>, isAdmin: Option<bool>): (u: User)
    ensures u.id == id && u.email == email && u.password == password
    ensures u.firstName == firstName && u.lastName == lastName
    ensures role == None ==> u.role == Client
    ensures role.Some? ==> u.role == role.value
    ensures isAdmin == None ==> !u.isAdmin
    ensures isAdmin.Some? ==> u.isAdmin == isAdmin.value
  {
    User(id, email, password, firstName, lastName,
         match role case Some(r) => r case None => Client,
         match isAdmin case Some(b) => b case None => false)
  }

  const PasswordSpecials := "!@#$%^&*"

  const PasswordMessage := "Password must contain at least one special character and one number, and be at least 8 characters long."

  /** The password validator `^(?=.*[!@#$%^&*])(?=.*\d).{8,}$`: both lookaheads are
      tried at position 0 and then `.{8,}$` must consume the whole string. */
  function PasswordValid(p: string): (b: bool)
    ensures b <==> |p| >= 8 && AllIn(p, Dot) && Has(p, AnyOf(PasswordSpecials)) && Has(p, Digit)
  {
    var special := LookaheadDotStar(p, AnyOf(PasswordSpecials));
    var digit := LookaheadDotStar(p, Digit);
    var rest := RunToEnd(p, Dot, 8);
    if rest then
      LookaheadIsSearch(p, AnyOf(PasswordSpecials));
      LookaheadIsSearch(p, Digit);
      special && digit && rest
    else
      false
  }

  /** The shape of a bcrypt hash at cost 12: `$2a$12$` or one of its `$2b$` / `$2y$`
      variants, then 53 characters of the bcrypt alphabet, 60 in all. */
  ghost predicate BcryptShaped(h: string) {
    && |h| == 60
    && h[0] == '$' && h[1] == '2' && h[2] in "aby" && h[3] == '$'
    && h[4] == '1' && h[5] == '2' && h[6] == '$'
    && forall i :: 7 <= i < 60 ==> IsBcryptChar(h[i])
  }

  /** The bcrypt base-64 alphabet `./A-Za-z0-9`. */
  predicate IsBcryptChar(c: char) {
    c == '.' || c == '/' || 'A' <= c <= 'Z' || 'a' <= c <= 'z' || '0' <= c <= '9'
  }

  /** Every save runs the validators of all the document's paths, the stored hash
      included; a bcrypt hash always passes the password validator. */
  lemma HashPassesValidator(h: string)
    requires BcryptShaped(h)
    ensures PasswordValid(h)
  {
    assert InClass(h[0], AnyOf(PasswordSpecials));
    assert InClass(h[1], Digit);
    forall i | 0 <= i < |h| ensures InClass(h[i], Dot) {
      if i < 7 {
        assert h[i] in "$2aby1";
      }
    }
  }

  /** The required string paths: Mongoose refuses a missing or empty value. */
  predicate RequiredPresent(u: User) {
    u.email != "" && u.password != "" && u.firstName != "" && u.lastName != ""
  }

  datatype SaveResult = Saved | Invalid(message: string) | DuplicateEmail

  /** A user document with Mongoose's record of whether `password` was set since it
      was loaded or created. */
  class UserDocument {
    var record: User
    var passwordModified: bool

    /** A new document: every path it was given counts as modified. */
    constructor (u: User)
      ensures record == u && passwordModified
    {
      record := u;
      passwordModified := true;
    }

    method SetPassword(p: string)
      modifies this
      ensures record == old(record).(password := p) && passwordModified
    {
      record := record.(password := p);
      passwordModified := true;
    }

    /** Changing any other path leaves the password path's modified flag alone. */
    method SetName(firstName: string, lastName: string)
      modifies this
      ensures record == old(record).(firstName := firstName, lastName := lastName)
      ensures passwordModified == old(passwordModified)
    {
      record := record.(firstName := firstName, lastName := lastName);
    }

    /** `save()`: validation first (required paths, then the password validator on the
        current value), then the pre-save hook, which replaces the password by
        `hash(password)` only when it was modified, then the write, which the unique
        index on `email` refuses when another user has it. `otherEmails` are the
        emails of the other stored users. A refused write leaves the hook's hash in
        the document, and the modified flag stays set. */
    method Save(hash: string -> string, otherEmails: set<string>) returns (r: SaveResult)
      modifies this
      ensures r == Invalid(PasswordMessage) || r == Invalid("Path is required.") || r == Saved || r == DuplicateEmail
      ensures r.Invalid? <==> !RequiredPresent(old(record)) || !PasswordValid(old(record.password))
      ensures r.Invalid? ==> record == old(record) && passwordModified == old(passwordModified)
      ensures !r.Invalid? ==> record == old(record).(password :=
                if old(passwordModified) then hash(old(record.password)) else old(record.password))
      ensures r == DuplicateEmail <==> !r.Invalid? && old(record.email) in otherEmails
      ensures r == Saved ==> !passwordModified
      ensures r == DuplicateEmail ==> passwordModified == old(passwordModified)
    {
      if !RequiredPresent(record) {
        return Invalid("Path is required.");
      }
      if !PasswordValid(record.password) {
        return Invalid(PasswordMessage);
      }
      if passwordModified {
        record := record.(password := hash(record.password));
      }
      if record.email in otherEmails {
        return DuplicateEmail;
      }
      passwordModified := false;
      r := Saved;
    }
  }

  /** A user is created and saved, then renamed and saved again: both saves succeed,
      the first stores the hash of the password, and the second leaves that hash as it
      was while storing the new name. The hash must pass the password validator, which
      every save runs. */
  method RenameKeepsHash(u: User, hash: string -> string, otherEmails: set<string>)
    returns (created: SaveResult, renamed: SaveResult, first: string, second: User)
    requires RequiredPresent(u) && PasswordValid(u.password) && u.email !in otherEmails
    requires BcryptShaped(hash(u.password))
    ensures created == Saved && renamed == Saved
    ensures first == hash(u.password) && second.password == first
    ensures second == u.(password := first, firstName := "Updated")
  {
    var doc := new UserDocument(u);
    created := doc.Save(hash, otherEmails);
    first := doc.record.password;
    doc.SetName("Updated", u.lastName);
    HashPassesValidator(first);
    renamed := doc.Save(hash, otherEmails);
    second := doc.record;
  }
}
