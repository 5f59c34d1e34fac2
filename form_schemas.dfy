/** The sign-up and account-opening Yup schemas of banka/frontend: what they accept,
    and how that compares with what the backend accepts for the same data. No
    component applies them, so this compares rules, not a path requests take. */
module FormSchemas {
  import opened Common
  import opened Patterns
  import opened UserModel
  import opened AccountModel
  import opened Ledger

  /** The special characters of the sign-up password rules. */
  const FrontSpecials := "@$!%*#?&"

  /** `[A-Za-z\d@$!%*#?&]` */
  const Allowed := Either(Letter, Either(Digit, AnyOf(FrontSpecials)))

  /** The specials that both the sign-up schema and the backend validator know. */
  const SharedSpecials := "@$!%*#&"

  /** None of the allowed code units is a line terminator. */
  lemma AllowedIsDot(p: string)
    requires AllIn(p, Allowed)
    ensures AllIn(p, Dot)
  {
    forall i | 0 <= i < |p| ensures InClass(p[i], Dot) {
      assert InClass(p[i], Allowed);
    }
  }

  /** `^(?=.*[A-Za-z])(?=.*\d)(?=.*[@$!%*#?&])[A-Za-z\d@$!%*#?&]{8,}$` */
  function PatternMatches(p: string): (b: bool)
    ensures b <==> |p| >= 8 && AllIn(p, Allowed) && Has(p, Letter) && Has(p, Digit) && Has(p, AnyOf(FrontSpecials))
  {
    var letter := LookaheadDotStar(p, Letter);
    var digit := LookaheadDotStar(p, Digit);
    var special := LookaheadDotStar(p, AnyOf(FrontSpecials));
    var rest := RunToEnd(p, Allowed, 8);
    if rest then
      AllowedIsDot(p);
      LookaheadIsSearch(p, Letter);
      LookaheadIsSearch(p, Digit);
      LookaheadIsSearch(p, AnyOf(FrontSpecials));
      letter && digit && special && rest
    else
      false
  }

  /** The `password-strength` test: at least 8 code units, an upper-case letter, a
      lower-case letter, a digit and one of the specials, each found by an
      unanchored search. */
  function StrongEnough(p: string): (b: bool)
    ensures b <==> |p| >= 8 && Has(p, Upper) && Has(p, Lower) && Has(p, Digit) && Has(p, AnyOf(FrontSpecials))
  {
    p != "" && |p| >= 8 && Search(p, Upper) && Search(p, Lower) && Search(p, Digit) && Search(p, AnyOf(FrontSpecials))
  }

  /** The sign-up password rules together: required, `min(8)`, the pattern and the
      strength test. The pattern's letter lookahead is implied by the strength test. */
  function SignupPasswordValid(p: string): (b: bool)
    ensures b <==> |p| >= 8 && AllIn(p, Allowed) && Has(p, Upper) && Has(p, Lower)
                   && Has(p, Digit) && Has(p, AnyOf(FrontSpecials))
  {
    UpperIsLetter(p);
    p != "" && |p| >= 8 && PatternMatches(p) && StrongEnough(p)
  }

  lemma UpperIsLetter(p: string)
    ensures Has(p, Upper) ==> Has(p, Letter)
  {
    if Has(p, Upper) {
      var i :| 0 <= i < |p| && InClass(p[i], Upper);
      assert InClass(p[i], Letter);
    }
  }

  datatype SignupForm = SignupForm(name: string, email: string, password: string, confirmPassword: string)

  /** The sign-up schema; the e-mail format test is the parameter `isEmail`. The
      confirmation must be present and equal to the password. */
  function SignupValid(f: SignupForm, isEmail: string -> bool): (b: bool)
    ensures b ==> f.password != "" && f.confirmPassword == f.password
    ensures b ==> SignupPasswordValid(f.confirmPassword)
    ensures b <==> f.name != "" && f.email != "" && isEmail(f.email)
                   && SignupPasswordValid(f.password) && f.confirmPassword != "" && f.confirmPassword == f.password
  {
    f.name != "" && f.email != "" && isEmail(f.email) && SignupPasswordValid(f.password)
    && f.confirmPassword != "" && f.confirmPassword in [f.password]
  }

  /** A password the sign-up schema accepts passes the backend validator exactly when
      it holds one of the specials the two rules share: `?` is a special only for
      the schema, and `^` is not allowed by the schema at all. */
  lemma SignupPasswordAtBackend(p: string)
    requires SignupPasswordValid(p)
    ensures PasswordValid(p) <==> Has(p, AnyOf(SharedSpecials))
  {
    AllowedIsDot(p);
    forall i | 0 <= i < |p|
      ensures InClass(p[i], AnyOf(PasswordSpecials)) <==> InClass(p[i], AnyOf(SharedSpecials))
    {
      assert InClass(p[i], Allowed);
      SpecialAlike(p[i]);
    }
  }

  /** Among the allowed code units, the backend's specials are the shared ones. */
  lemma SpecialAlike(c: char)
    requires InClass(c, Allowed)
    ensures c in PasswordSpecials <==> c in SharedSpecials
  {
    if c in PasswordSpecials {
      assert c == '!' || c == '@' || c == '#' || c == '$' || c == '%' || c == '^' || c == '&' || c == '*';
    }
    if c in SharedSpecials {
      assert c == '@' || c == '$' || c == '!' || c == '%' || c == '*' || c == '#' || c == '&';
    }
  }

  /** A password whose only special is `?`: the sign-up schema accepts it, the backend refuses it. */
  lemma QuestionMarkPassword()
    ensures SignupPasswordValid("Abcdefg1?") && !PasswordValid("Abcdefg1?")
  {
    QuestionMarkShape("Abcdefg1?");
    SignupPasswordAtBackend("Abcdefg1?");
  }

  lemma QuestionMarkShape(p: string)
    requires p == "Abcdefg1?"
    ensures |p| >= 8 && AllIn(p, Allowed) && Has(p, Upper) && Has(p, Lower) && Has(p, Digit)
    ensures Has(p, AnyOf(FrontSpecials)) && !Has(p, AnyOf(SharedSpecials))
  {
    assert InClass(p[0], Upper) && InClass(p[1], Lower) && InClass(p[7], Digit) && InClass(p[8], AnyOf(FrontSpecials));
    forall i | 0 <= i < |p| ensures InClass(p[i], Allowed) && p[i] !in SharedSpecials {
      assert 'a' <= p[i] <= 'z' || p[i] == 'A' || p[i] == '1' || p[i] == '?';
      NotShared(p[i]);
    }
  }

  lemma NotShared(c: char)
    requires '0' <= c && c != '@'
    ensures c !in SharedSpecials
  {
    assert forall i :: 0 <= i < |SharedSpecials| ==> SharedSpecials[i] < '0' || SharedSpecials[i] == '@';
  }

  /** `Minimum $100 initial deposit`, in cents. */
  const MinimumDeposit := 10000

  datatype AccountForm = AccountForm(accountType: string, initialDeposit: Option<int>)

  /** The account-opening schema: a type of `savings` or `current` and a deposit of
      at least 100 dollars. */
  function AccountFormValid(f: AccountForm): (b: bool)
    ensures b <==> (f.accountType == "savings" || f.accountType == "current")
                   && f.initialDeposit.Some? && f.initialDeposit.value >= MinimumDeposit
  {
    ParseType(f.accountType).Some? && f.initialDeposit.Some? && f.initialDeposit.value >= MinimumDeposit
  }

  /** The body the account form posts: `{ type, balance, status: 'pending' }`. */
  function AsCreateBody(f: AccountForm): (body: CreateBody)
    ensures body.accountType == Some(f.accountType) && body.balance == f.initialDeposit
    ensures body.status == Some("pending") && body.owner.None? && body.accountNumber.None?
  {
    CreateBody(Some(f.accountType), f.initialDeposit, None, Some("pending"), None)
  }

  /** Whatever the account schema accepts, posted as the account form posts it, the
      backend validators accept; the converse fails for any opening balance below
      100 dollars. */
  lemma AccountFormWithinBackend(f: AccountForm)
    ensures AccountFormValid(f) ==> CreateCheck(AsCreateBody(f)) == None
                                    && ParseStatus(AsCreateBody(f).status.value) == Some(Pending)
    ensures f.initialDeposit.Some? && 0 <= f.initialDeposit.value < MinimumDeposit && ParseType(f.accountType).Some?
            ==> !AccountFormValid(f) && CreateCheck(AsCreateBody(f)) == None
  {
  }
}
