/** A member's settings page (src/Settings.jsx): the profile form and the
    update it sends, the password change checks, and the two confirmations
    in front of deleting the account. */
module Settings {
  import opened Wrappers
  import opened Text
  import opened Roles

  // =====================================================================
  // The profile form
  // =====================================================================

  /** The signed-in member's profile as loaded. */
  datatype Profile = Profile(id: string, firstName: Option<string>, lastName: Option<string>, grade: Option<int>, role: Option<Role>)

  /** `profileData`; `grade` is the text of the grade select. */
  datatype ProfileForm = ProfileForm(firstName: string, lastName: string, grade: string)

  /** The form filled from the profile: a missing name is empty, and a
      missing or zero grade is empty. */
  function FormOf(profile: Profile): (r: ProfileForm)
    ensures profile.firstName.Some? ==> r.firstName == profile.firstName.value
    ensures profile.lastName.Some? ==> r.lastName == profile.lastName.value
    ensures profile.firstName.None? ==> r.firstName == ""
    ensures profile.lastName.None? ==> r.lastName == ""
    ensures r.grade == "" <==> profile.grade.None? || profile.grade == Some(0)
    ensures profile.grade.Some? && profile.grade.value > 0 ==> ParseInt(r.grade) == profile.grade
  {
    var grade := if profile.grade.Some? && profile.grade.value != 0 then IntToString(profile.grade.value) else "";
    assert profile.grade.Some? && profile.grade.value > 0 ==> ParseInt(grade) == profile.grade by {
      if profile.grade.Some? && profile.grade.value > 0 {
        ParseIntOfNatToString(profile.grade.value);
      }
    }
    ProfileForm(profile.firstName.GetOr(""), profile.lastName.GetOr(""), grade)
  }

  /** The `grade` key of `updateData`: left out, `null`, or a number. */
  datatype GradeField = Omitted | Null | Value(n: int)

  datatype ProfileUpdate = ProfileUpdate(firstName: string, lastName: string, grade: GradeField)

  /** `updateData` in `handleProfileUpdate`: both names always; for anyone
      but an administrator also `parseInt(grade) || null`, which turns both
      an unparsable grade and 0 into null. */
  function UpdateData(role: Option<Role>, form: ProfileForm): (r: ProfileUpdate)
    ensures r.firstName == form.firstName && r.lastName == form.lastName
    ensures r.grade.Omitted? <==> role == Some(Admin)
    ensures r.grade.Value? ==> r.grade.n != 0 && ParseInt(form.grade) == Some(r.grade.n)
    ensures r.grade.Null? <==> role != Some(Admin) && (ParseInt(form.grade).None? || ParseInt(form.grade) == Some(0))
  {
    var grade :=
      if role == Some(Admin) then Omitted
      else match ParseInt(form.grade)
        case Some(n) => if n != 0 then Value(n) else Null
        case None => Null;
    ProfileUpdate(form.firstName, form.lastName, grade)
  }

  /** Saving the form unchanged writes back what was loaded: the names, and
      for a member or leader with a grade, that grade. */
  lemma SaveUnchanged(profile: Profile)
    requires profile.role != Some(Admin)
    requires profile.grade.Some? && profile.grade.value > 0
    requires profile.firstName.Some? && profile.lastName.Some?
    ensures UpdateData(profile.role, FormOf(profile))
         == ProfileUpdate(profile.firstName.value, profile.lastName.value, Value(profile.grade.value))
  {
  }

  // =====================================================================
  // Password change and account deletion
  // =====================================================================

  const Mismatch := "New passwords do not match"
  const TooShort := "Password must be at least 6 characters"
  const MinPasswordLength := 6

  /** `handlePasswordChange`: the two entries must agree, checked first, and
      the password must be at least six UTF-16 code units long (its
      `.length`); the password to send otherwise. */
  function PasswordChange(newPassword: string, confirm: string): (r: Result<string, string>)
    ensures r == Err(Mismatch) <==> newPassword != confirm
    ensures r == Err(TooShort) <==> newPassword == confirm && Utf16Length(newPassword) < MinPasswordLength
    ensures r.Ok? <==> newPassword == confirm && Utf16Length(newPassword) >= MinPasswordLength
    ensures r.Ok? ==> r.value == newPassword
    ensures r.Ok? ==> |newPassword| >= MinPasswordLength / 2
  {
    if newPassword != confirm then Err(Mismatch)
    else if Utf16Length(newPassword) < MinPasswordLength then Err(TooShort)
    else Ok(newPassword)
  }

  /** The length check counts code units, not characters: three emoji make
      six code units and pass, while six letters are needed without them. */
  lemma ThreeEmojiPass()
    ensures |"\U{1F600}\U{1F600}\U{1F600}"| == 3
    ensures PasswordChange("\U{1F600}\U{1F600}\U{1F600}", "\U{1F600}\U{1F600}\U{1F600}").Ok?
    ensures PasswordChange("abcde", "abcde") == Err(TooShort)
  {
    var e := "\U{1F600}\U{1F600}\U{1F600}";
    assert e[..1][..0] == [] && e[..1][0] as int >= 0x1_0000;
    assert Utf16Length(e[..1]) == 2;
    assert e[..2][..1] == e[..1] && e[..2][1] as int >= 0x1_0000;
    assert Utf16Length(e[..2]) == 4;
    assert e[..|e| - 1] == e[..2];
    assert Utf16Length(e) == 6;
  }

  /** `handleDeleteAccount`'s gate: the prompt must come back with exactly
      "DELETE" (`None` when cancelled) and the second question must be
      accepted. */
  function DeleteConfirmed(confirmText: Option<string>, doubleConfirm: bool): (proceed: bool)
    ensures proceed ==> confirmText == Some("DELETE") && doubleConfirm
    ensures confirmText == Some("DELETE") && doubleConfirm ==> proceed
  {
    confirmText == Some("DELETE") && doubleConfirm
  }

  // =====================================================================
  // The page state
  // =====================================================================

  datatype MessageKind = Success | Error

  datatype Message = NoMessage | Shown(text: string, kind: MessageKind)

  class SettingsPage {
    var profileData: ProfileForm
    var newPassword: string
    var confirmPassword: string
    var message: Message

    constructor()
      ensures profileData == ProfileForm("", "", "") && newPassword == "" && confirmPassword == ""
      ensures message == NoMessage
    {
      profileData := ProfileForm("", "", "");
      newPassword, confirmPassword := "", "";
      message := NoMessage;
    }

    /** The effect that fills the form once the profile is there. */
    method ProfileArrived(profile: Option<Profile>)
      modifies this
      ensures profile.Some? ==> profileData == FormOf(profile.value)
      ensures profile.None? ==> profileData == old(profileData)
      ensures newPassword == old(newPassword) && confirmPassword == old(confirmPassword) && message == old(message)
    {
      if profile.Some? {
        profileData := FormOf(profile.value);
      }
    }

    /** `handlePasswordChange` with the outcome of the update (`None` when it
        succeeded, else its error message): a refused or failed change keeps
        the entries, a successful one clears both. */
    method ChangePassword(updateError: Option<string>) returns (request: Result<string, string>)
      modifies this
      ensures request == PasswordChange(old(newPassword), old(confirmPassword))
      ensures request.Err? ==> message == Shown(request.error, Error)
      ensures request.Ok? && updateError.Some? ==> message == Shown("Failed to update password: " + updateError.value, Error)
      ensures request.Ok? && updateError.None? ==>
                newPassword == "" && confirmPassword == ""
                && message == Shown("Password updated successfully! A confirmation email has been sent.", Success)
      ensures !(request.Ok? && updateError.None?) ==>
                newPassword == old(newPassword) && confirmPassword == old(confirmPassword)
      ensures profileData == old(profileData)
    {
      request := PasswordChange(newPassword, confirmPassword);
      if request.Err? {
        message := Shown(request.error, Error);
      } else if updateError.Some? {
        message := Shown("Failed to update password: " + updateError.value, Error);
      } else {
        message := Shown("Password updated successfully! A confirmation email has been sent.", Success);
        newPassword, confirmPassword := "", "";
      }
    }
  }
}
