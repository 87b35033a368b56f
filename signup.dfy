/** The sign-up form (src/Signup.jsx): the password confirmation and the
    optional grade are checked before the account is requested with the
    member's name and grade as metadata. */
module Signup {
  import opened Wrappers
  import opened Text

  datatype SignupForm = SignupForm(
    email: string,
    password: string,
    confirmPassword: string,
    firstName: string,
    lastName: string,
    grade: string)

  /** `gradeNum`: `null` for an empty field, otherwise what `parseInt`
      returns, NaN included. */
  datatype GradeNum = NoGrade | Grade(n: int) | NotANumber

  /** The user metadata of the sign-up request. */
  datatype Metadata = Metadata(firstName: string, lastName: string, grade: GradeNum)

  datatype SignUpRequest = SignUpRequest(email: string, password: string, data: Metadata)

  const PasswordsDiffer := "Passwords don't match!"
  const GradeOutOfRange := "Grade must be between 10 and 12"

  function GradeNumOf(grade: string): (g: GradeNum)
    ensures g.NoGrade? <==> grade == ""
    ensures g.Grade? ==> ParseInt(grade) == Some(g.n)
    ensures grade != "" && ParseInt(grade).Some? ==> g == Grade(ParseInt(grade).value)
    ensures g.NotANumber? <==> grade != "" && ParseInt(grade).None?
  {
    if grade == "" then NoGrade
    else match ParseInt(grade)
      case Some(n) => Grade(n)
      case None => NotANumber
  }

  /** The range test, where every comparison with NaN is false. */
  predicate OutOfRange(g: GradeNum) {
    g.Grade? && (g.n < 10 || g.n > 12)
  }

  /** `handleSignUp`: the passwords must match, checked first; a grade that
      is given must be from 10 to 12; then the request with the names and
      the grade, which is null when none was given. */
  function SignUp(form: SignupForm): (r: Result<SignUpRequest, string>)
    ensures r == Err(PasswordsDiffer) <==> form.password != form.confirmPassword
    ensures r == Err(GradeOutOfRange) <==> form.password == form.confirmPassword && OutOfRange(GradeNumOf(form.grade))
    ensures r.Ok? ==> r.value.email == form.email && r.value.password == form.password
    ensures r.Ok? ==> r.value.data.firstName == form.firstName && r.value.data.lastName == form.lastName
    ensures r.Ok? ==> r.value.data.grade == GradeNumOf(form.grade)
    ensures r.Ok? && r.value.data.grade.Grade? ==> 10 <= r.value.data.grade.n <= 12
    ensures r.Ok? ==> (r.value.data.grade.NoGrade? <==> form.grade == "")
  {
    if form.password != form.confirmPassword then Err(PasswordsDiffer)
    else
      var gradeNum := GradeNumOf(form.grade);
      if OutOfRange(gradeNum) then Err(GradeOutOfRange)
      else Ok(SignUpRequest(form.email, form.password, Metadata(form.firstName, form.lastName, gradeNum)))
  }

  /** A grade field holding the numeral of `n` is accepted exactly when `n`
      is 10, 11 or 12, and then `n` is the grade sent. */
  lemma GradeNumeral(form: SignupForm, n: nat)
    requires form.password == form.confirmPassword && form.grade == NatToString(n)
    ensures SignUp(form).Ok? <==> 10 <= n <= 12
    ensures SignUp(form).Ok? ==> SignUp(form).value.data.grade == Grade(n)
  {
    ParseIntOfNatToString(n);
  }

  /** `parseInt(".1e2")` is NaN: no digit before the point. */
  lemma ParseTenthE2()
    ensures ParseInt(".1e2").None?
  {
    var g := ".1e2";
    assert g[0] == '.' && !IsSpace(g[0]) && !IsDigit(g[0]);
    assert TrimStart(g) == g;
    assert UnsignedPrefix(g).None?;
  }

  lemma OnePointOneE1Digits()
    ensures LeadingDigits("1.1e1") == 1
    ensures DigitsValue("1") == 1
  {
    assert "1.1e1"[1..] == ".1e1";
    assert LeadingDigits(".1e1") == 0;
    assert "1"[..0] == [];
  }

  /** `parseInt("1.1e1")` is 1: reading stops at the point. */
  lemma ParseOnePointOneE1()
    ensures ParseInt("1.1e1") == Some(1)
  {
    var g := "1.1e1";
    OnePointOneE1Digits();
    assert g[0] == '1' && !IsSpace(g[0]);
    assert TrimStart(g) == g;
    assert g[..1] == "1";
    assert UnsignedPrefix(g) == Some(1);
  }

  /** Two grades the number input with `min="10"` and `max="12"` lets
      through, since their values are 10 and 11, which `handleSignUp`
      reads with `parseInt` as something else: ".1e2" is NaN, passes the
      range test and is sent; "1.1e1" is 1 and is refused as out of range. */
  lemma ExponentGrades(form: SignupForm)
    requires form.password == form.confirmPassword
    ensures form.grade == ".1e2" ==> SignUp(form).Ok? && SignUp(form).value.data.grade == NotANumber
    ensures form.grade == "1.1e1" ==> SignUp(form) == Err(GradeOutOfRange)
  {
    ParseTenthE2();
    ParseOnePointOneE1();
  }
}
