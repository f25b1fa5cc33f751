/**
 * registerSchema: name, email and a password that must meet five rules.
 * Zod's email check is the parameter `isEmail`; the password rules are the
 * schema's character-class regular expressions, each stated as a predicate.
 */
module UserValidation {
  import opened Domain
  import opened Schema

  const NameMessage := "O nome precisa ter no mínimo 3 caracteres."
  const EmailMessage := "Por favor, insira um email válido."
  const PasswordLengthMessage := "A senha deve ter no mínimo 8 caracteres."
  const UpperMessage := "A senha deve conter pelo menos uma letra maiúscula."
  const LowerMessage := "A senha deve conter pelo menos uma letra minúscula."
  const DigitMessage := "A senha deve conter pelo menos um número."
  const SpecialMessage := "A senha deve conter pelo menos um caractere especial."

  const NameMin := 3
  const PasswordMin := 8

  /** The data of a valid registration. */
  datatype Registration = Registration(name: string, email: string, password: string)

  predicate IsUpper(c: char) { 'A' <= c <= 'Z' }
  predicate IsLower(c: char) { 'a' <= c <= 'z' }

  /** `/[A-Z]/`, `/[a-z]/`, `/[0-9]/`: some character is in the class. */
  predicate HasUpper(s: string) { exists i :: 0 <= i < |s| && IsUpper(s[i]) }
  predicate HasLower(s: string) { exists i :: 0 <= i < |s| && IsLower(s[i]) }
  predicate HasDigit(s: string) { exists i :: 0 <= i < |s| && IsDigit(s[i]) }
  /** `/[^A-Za-z0-9]/`: some character is outside the three ASCII classes. */
  predicate HasSpecial(s: string) { exists i :: 0 <= i < |s| && !IsUpper(s[i]) && !IsLower(s[i]) && !IsDigit(s[i]) }

  /** One failed-rule issue when `ok` is false. */
  function Rule(ok: bool, message: string): (r: seq<Issue>)
  {
    if ok then [] else Here(message)
  }

  /** The password's checks, all run, in declaration order. */
  function PasswordIssues(v: Option<Json>): (r: seq<Issue>)
  {
    match v
    case Some(JStr(s)) =>
      Rule(|s| >= PasswordMin, PasswordLengthMessage) + Rule(HasUpper(s), UpperMessage)
      + Rule(HasLower(s), LowerMessage) + Rule(HasDigit(s), DigitMessage)
      + Rule(HasSpecial(s), SpecialMessage)
    case _ => Here(InvalidType("string", v))
  }

  function NameIssues(v: Option<Json>): (r: seq<Issue>)
  {
    match v
    case Some(JStr(s)) => Rule(|s| >= NameMin, NameMessage)
    case _ => Here(InvalidType("string", v))
  }

  /** `z.email(message)`: every failure, wrong type included, carries `message`. */
  function EmailIssues(v: Option<Json>, isEmail: string -> bool): (r: seq<Issue>)
  {
    match v
    case Some(JStr(s)) => Rule(isEmail(s), EmailMessage)
    case _ => Here(EmailMessage)
  }

  function RegisterIssues(body: Json, isEmail: string -> bool): (r: seq<Issue>)
  {
    match body
    case JObj(f) =>
      Under(Key("name"), NameIssues(Field(f, "name")))
      + Under(Key("email"), EmailIssues(Field(f, "email"), isEmail))
      + Under(Key("password"), PasswordIssues(Field(f, "password")))
    case _ => Here(InvalidType("object", Some(body)))
  }

  /** `registerSchema.safeParse(body)`. */
  function ParseRegister(body: Json, isEmail: string -> bool): (r: Parsed<Registration>)
  {
    var issues := RegisterIssues(body, isEmail);
    if issues != [] || !body.JObj? then Failure(issues)
    else Success(Registration(StringAt(body.fields, "name"), StringAt(body.fields, "email"), StringAt(body.fields, "password")))
  }

  // ---------------------------------------------------------------------------
  // Properties

  /** A password meeting all five rules. */
  predicate StrongPassword(s: string)
  {
    |s| >= PasswordMin && HasUpper(s) && HasLower(s) && HasDigit(s) && HasSpecial(s)
  }

  /**
   * Each rule's message is reported exactly when that rule fails, so the
   * password is accepted exactly when all five hold.
   */
  lemma PasswordMessages(s: string)
    ensures Issue([], PasswordLengthMessage) in PasswordIssues(Some(JStr(s))) <==> |s| < PasswordMin
    ensures Issue([], UpperMessage) in PasswordIssues(Some(JStr(s))) <==> !HasUpper(s)
    ensures Issue([], LowerMessage) in PasswordIssues(Some(JStr(s))) <==> !HasLower(s)
    ensures Issue([], DigitMessage) in PasswordIssues(Some(JStr(s))) <==> !HasDigit(s)
    ensures Issue([], SpecialMessage) in PasswordIssues(Some(JStr(s))) <==> !HasSpecial(s)
    ensures PasswordIssues(Some(JStr(s))) == [] <==> StrongPassword(s)
  {
    PasswordRules(|s| >= PasswordMin, HasUpper(s), HasLower(s), HasDigit(s), HasSpecial(s));
  }

  /** The same, for the outcomes of the five rules taken as plain booleans. */
  lemma PasswordRules(long: bool, upper: bool, lower: bool, digit: bool, special: bool)
    ensures var issues := Rule(long, PasswordLengthMessage) + Rule(upper, UpperMessage)
      + Rule(lower, LowerMessage) + Rule(digit, DigitMessage) + Rule(special, SpecialMessage);
      && (Issue([], PasswordLengthMessage) in issues <==> !long)
      && (Issue([], UpperMessage) in issues <==> !upper)
      && (Issue([], LowerMessage) in issues <==> !lower)
      && (Issue([], DigitMessage) in issues <==> !digit)
      && (Issue([], SpecialMessage) in issues <==> !special)
      && (issues == [] <==> long && upper && lower && digit && special)
  {
    DistinctMessages();
    var r1, r2, r3, r4, r5 := Rule(long, PasswordLengthMessage), Rule(upper, UpperMessage),
      Rule(lower, LowerMessage), Rule(digit, DigitMessage), Rule(special, SpecialMessage);
    RuleHolds(long, PasswordLengthMessage);
    RuleHolds(upper, UpperMessage);
    RuleHolds(lower, LowerMessage);
    RuleHolds(digit, DigitMessage);
    RuleHolds(special, SpecialMessage);
    FiveParts(r1, r2, r3, r4, r5);
  }

  /** A rule reports its own message, and only it, exactly when it fails. */
  lemma RuleHolds(ok: bool, message: string)
    ensures forall x :: x in Rule(ok, message) <==> !ok && x == Issue([], message)
    ensures Rule(ok, message) == [] <==> ok
  {
  }

  /** The five password messages are different texts. */
  lemma DistinctMessages()
    ensures PasswordLengthMessage != UpperMessage && PasswordLengthMessage != LowerMessage
    ensures PasswordLengthMessage != DigitMessage && PasswordLengthMessage != SpecialMessage
    ensures UpperMessage != LowerMessage && UpperMessage != DigitMessage && UpperMessage != SpecialMessage
    ensures LowerMessage != DigitMessage && LowerMessage != SpecialMessage && DigitMessage != SpecialMessage
  {
    assert |PasswordLengthMessage| == 40 && |DigitMessage| == 41 && |SpecialMessage| == 53;
    assert |UpperMessage| == 51 && |LowerMessage| == 51;
    assert UpperMessage[42] != LowerMessage[42];
  }

  /** A registration is accepted exactly when the name is long enough, the email valid and the password strong. */
  lemma RegisterAccepted(f: map<string, Json>, isEmail: string -> bool)
    ensures ParseRegister(JObj(f), isEmail).Success? <==>
      && (match Field(f, "name") case Some(JStr(n)) => |n| >= NameMin case _ => false)
      && (match Field(f, "email") case Some(JStr(e)) => isEmail(e) case _ => false)
      && (match Field(f, "password") case Some(JStr(p)) => StrongPassword(p) case _ => false)
  {
    match Field(f, "password") {
      case Some(JStr(p)) => PasswordMessages(p);
      case _ =>
    }
  }

  /** "Senha@123" meets every rule. */
  lemma ExampleStrongPassword()
    ensures StrongPassword("Senha@123")
  {
    var s := "Senha@123";
    assert IsUpper(s[0]) && IsLower(s[1]) && !IsUpper(s[5]) && !IsLower(s[5]) && !IsDigit(s[5]) && IsDigit(s[6]);
  }

  /** A letter outside ASCII, such as 'ç', counts as the special character. */
  lemma AccentCountsAsSpecial()
    ensures HasSpecial("çabc") && !HasUpper("çabc")
  {
    assert !IsUpper("çabc"[0]) && !IsLower("çabc"[0]) && !IsDigit("çabc"[0]);
  }
}
