/** The profile settings page of the web dashboard
    (ArgosDashboard/frontend/src/pages/SettingsPage.jsx): the password form
    with its checks, the automation-rule switches stored on every change and
    the profile photo. The server's answer is a parameter. */
module Settings {
  import opened Wrappers
  import opened Json

  const DefaultProfileImage: string :=
    "https://lh3.googleusercontent.com/aida-public/AB6AXuA1L7rM2zcncRnXLxVvRT4UpegMvQnzzcktxyMyRJxlJm5Lrwo7Vpgf-ubTejaj5D21MCQw46xvqCDN8aJKIjxM63DErtRIUgTtrHEpoNGg4AED3gNMDMeFynos7aNajADeuJhyHPx4viLOVMK7PLgFxzMI3Ad4EZ1QYBnkljjKWsP7aSQbhlTtvAZq-WYO0vmPuD-dTyc9IcMWwvLiN7rWz3eFK7MAqXBQWSTqRaKnQ9iBYlqyEaF1cJ0uFsiDdjujoTkp4_y1LWE"

  const DefaultAutomationRules: map<string, Json> := map[
    "criticalAlerts" := JBool(true),
    "criticalEmail" := JStr("manager@cathay.com"),
    "imbalanceAlerts" := JBool(true),
    "imbalanceThreshold" := JStr("20"),
    "misuseTracking" := JBool(true)]

  datatype PasswordForm = PasswordForm(currentPassword: string, newPassword: string, confirmPassword: string)

  datatype PasswordField = CurrentPassword | NewPassword | ConfirmPassword

  datatype PasswordStatus = PasswordStatus(kind: string, message: string)

  const EmptyPasswordForm: PasswordForm := PasswordForm("", "", "")

  const MissingFieldsMessage: string := "Please fill all fields."
  const MismatchMessage: string := "New passwords do not match."
  const UpdatedMessage: string := "Password updated successfully."

  /** The checks `savePassword` makes before sending anything: the message
      it shows, or `None` when the request goes out. */
  function CheckPasswordForm(form: PasswordForm): (r: Option<string>)
    ensures r.None? <==> form.currentPassword != "" && form.newPassword != "" && form.newPassword == form.confirmPassword
  {
    if form.currentPassword == "" || form.newPassword == "" then Some(MissingFieldsMessage)
    else if form.newPassword != form.confirmPassword then Some(MismatchMessage)
    else None
  }

  /** An empty current or new password is reported before a mismatch, and a
      mismatch only when both are filled in. */
  lemma CheckPasswordFormOrder(form: PasswordForm)
    ensures form.currentPassword == "" || form.newPassword == "" ==>
      CheckPasswordForm(form) == Some(MissingFieldsMessage)
    ensures CheckPasswordForm(form) == Some(MismatchMessage) <==>
      form.currentPassword != "" && form.newPassword != "" && form.newPassword != form.confirmPassword
  {
  }

  /** How the request to change the password ended: accepted, refused with
      its parsed body (the empty object when it is not JSON), or a rejected
      `fetch` with its message. */
  datatype PasswordOutcome = Updated | Refused(body: Json) | Unreachable(message: string)

  /** The message after a failed request; `textOf` stands for JavaScript's
      `String(value)` of the body's `detail` member. */
  function PasswordError(outcome: PasswordOutcome, textOf: Json -> string): (m: string)
    requires !outcome.Updated?
    ensures m != ""
    ensures outcome.Refused? && outcome.body.JObj? && !Truthy(Member(outcome.body, "detail").value) ==>
      m == "Failed to update password."
    ensures outcome.Refused? && outcome.body == JNull ==> m == "Cannot read properties of null (reading 'detail')"
    ensures outcome.Unreachable? ==> m == if outcome.message != "" then outcome.message else "Unable to update password."
  {
    var message :=
      match outcome
      case Unreachable(text) => text
      case Refused(body) =>
        match Member(body, "detail")
        case Err(_) => "Cannot read properties of null (reading 'detail')"
        case Ok(detail) => if Truthy(detail) then textOf(detail.value) else "Failed to update password.";
    if message != "" then message else "Unable to update password."
  }

  /** `!prev[field]` stored back under `field`. */
  function ToggledRules(rules: map<string, Json>, field: string): (r: map<string, Json>)
    ensures r.Keys == rules.Keys + {field}
    ensures r[field] == JBool(!Truthy(if field in rules then Some(rules[field]) else None))
    ensures forall k :: k in rules && k != field ==> r[k] == rules[k]
  {
    rules[field := JBool(!Truthy(if field in rules then Some(rules[field]) else None))]
  }

  /** Toggling a switch twice restores it. */
  lemma ToggleTwiceRestores(rules: map<string, Json>, field: string)
    requires field in rules && rules[field].JBool?
    ensures ToggledRules(ToggledRules(rules, field), field) == rules
  {
  }

  class SettingsPage {
    var profileImage: string
    var automationRules: map<string, Json>
    var passwordForm: PasswordForm
    var passwordStatus: Option<PasswordStatus>
    var passwordLoading: bool
    /** The stored photo and automation entries. */
    var storedImage: Option<string>
    var storedAutomation: Option<Blob>

    /** The automation rules are stored after every change. */
    ghost predicate Valid()
      reads this
    {
      storedAutomation == Some(Doc(JObj(automationRules)))
    }

    /** The first render and its effects: a non-empty stored photo replaces
        the default one, a stored object replaces the default rules (text that
        does not parse is ignored), and the rules shown are stored. */
    constructor (storedImage: Option<string>, savedAutomation: Option<Blob>)
      ensures Valid()
      ensures profileImage == if storedImage.Some? && storedImage.value != "" then storedImage.value else DefaultProfileImage
      ensures savedAutomation.Some? && savedAutomation.value.Doc? && savedAutomation.value.doc.JObj? ==>
        automationRules == savedAutomation.value.doc.fields
      ensures !(savedAutomation.Some? && savedAutomation.value.Doc?) ==> automationRules == DefaultAutomationRules
      ensures passwordForm == EmptyPasswordForm && passwordStatus == None && !passwordLoading
      ensures this.storedImage == storedImage
    {
      var image := DefaultProfileImage;
      if storedImage.Some? && storedImage.value != "" {
        image := storedImage.value;
      }
      var rules := DefaultAutomationRules;
      if savedAutomation.Some? && savedAutomation.value.Doc? && savedAutomation.value.doc.JObj? {
        rules := savedAutomation.value.doc.fields;
      }
      profileImage := image;
      automationRules := rules;
      passwordForm := EmptyPasswordForm;
      passwordStatus := None;
      passwordLoading := false;
      this.storedImage := storedImage;
      storedAutomation := Some(Doc(JObj(rules)));
    }

    /** `toggleAutomationRule(field)`: that switch flips, every other rule
        stays, and the rules are stored. */
    method ToggleAutomationRule(field: string)
      requires Valid()
      modifies this
      ensures Valid()
      ensures automationRules == ToggledRules(old(automationRules), field)
      ensures profileImage == old(profileImage) && storedImage == old(storedImage)
      ensures passwordForm == old(passwordForm) && passwordStatus == old(passwordStatus)
      ensures passwordLoading == old(passwordLoading)
    {
      var previous := if field in automationRules then Some(automationRules[field]) else None;
      automationRules := automationRules[field := JBool(!Truthy(previous))];
      storedAutomation := Some(Doc(JObj(automationRules)));
    }

    /** `handleAutomationInputChange(field)`: the rule takes the text typed. */
    method HandleAutomationInputChange(field: string, value: string)
      requires Valid()
      modifies this
      ensures Valid()
      ensures automationRules == old(automationRules)[field := JStr(value)]
      ensures profileImage == old(profileImage) && storedImage == old(storedImage)
      ensures passwordForm == old(passwordForm) && passwordStatus == old(passwordStatus)
      ensures passwordLoading == old(passwordLoading)
    {
      automationRules := automationRules[field := JStr(value)];
      storedAutomation := Some(Doc(JObj(automationRules)));
    }

    /** `handlePasswordInputChange(field)`: the field takes the text and any
        status disappears. */
    method HandlePasswordInputChange(field: PasswordField, value: string)
      modifies this
      ensures passwordForm == match field
        case CurrentPassword => old(passwordForm).(currentPassword := value)
        case NewPassword => old(passwordForm).(newPassword := value)
        case ConfirmPassword => old(passwordForm).(confirmPassword := value)
      ensures passwordStatus == None
      ensures profileImage == old(profileImage) && storedImage == old(storedImage)
      ensures automationRules == old(automationRules) && storedAutomation == old(storedAutomation)
      ensures passwordLoading == old(passwordLoading)
    {
      match field {
        case CurrentPassword => passwordForm := passwordForm.(currentPassword := value);
        case NewPassword => passwordForm := passwordForm.(newPassword := value);
        case ConfirmPassword => passwordForm := passwordForm.(confirmPassword := value);
      }
      passwordStatus := None;
    }

    /** `savePassword`, with the request's outcome given. A form failing the
        checks sends nothing and shows the check's message; a successful
        change clears all three fields. */
    method SavePassword(outcome: PasswordOutcome, textOf: Json -> string) returns (requested: bool)
      modifies this
      ensures requested <==> CheckPasswordForm(old(passwordForm)).None?
      ensures !requested ==>
        && passwordStatus == Some(PasswordStatus("error", CheckPasswordForm(old(passwordForm)).value))
        && passwordForm == old(passwordForm) && passwordLoading == old(passwordLoading)
      ensures requested && outcome.Updated? ==>
        passwordStatus == Some(PasswordStatus("success", UpdatedMessage)) && passwordForm == EmptyPasswordForm
      ensures requested && !outcome.Updated? ==>
        passwordStatus == Some(PasswordStatus("error", PasswordError(outcome, textOf))) && passwordForm == old(passwordForm)
      ensures requested ==> !passwordLoading
      ensures profileImage == old(profileImage) && storedImage == old(storedImage)
      ensures automationRules == old(automationRules) && storedAutomation == old(storedAutomation)
    {
      if passwordForm.currentPassword == "" || passwordForm.newPassword == "" {
        passwordStatus := Some(PasswordStatus("error", MissingFieldsMessage));
        return false;
      }
      if passwordForm.newPassword != passwordForm.confirmPassword {
        passwordStatus := Some(PasswordStatus("error", MismatchMessage));
        return false;
      }
      requested := true;
      passwordLoading := true;
      if outcome.Updated? {
        passwordStatus := Some(PasswordStatus("success", UpdatedMessage));
        passwordForm := EmptyPasswordForm;
      } else {
        passwordStatus := Some(PasswordStatus("error", PasswordError(outcome, textOf)));
      }
      passwordLoading := false;
    }

    /** `handlePhotoUpload` once the file is read: a text result becomes the
        photo and is stored; anything else changes nothing. */
    method HandlePhotoUpload(result: Option<string>)
      modifies this
      ensures result.Some? ==> profileImage == result.value && storedImage == result
      ensures result.None? ==> profileImage == old(profileImage) && storedImage == old(storedImage)
      ensures automationRules == old(automationRules) && storedAutomation == old(storedAutomation)
      ensures passwordForm == old(passwordForm) && passwordStatus == old(passwordStatus)
      ensures passwordLoading == old(passwordLoading)
    {
      if result.Some? {
        profileImage := result.value;
        storedImage := result;
      }
    }

    /** `handleDeletePhoto`: back to the default photo, nothing stored. */
    method HandleDeletePhoto()
      modifies this
      ensures profileImage == DefaultProfileImage && storedImage == None
      ensures automationRules == old(automationRules) && storedAutomation == old(storedAutomation)
      ensures passwordForm == old(passwordForm) && passwordStatus == old(passwordStatus)
      ensures passwordLoading == old(passwordLoading)
    {
      profileImage := DefaultProfileImage;
      storedImage := None;
    }
  }
}
