/**
 * The sign-in form (`components/LoginForm.tsx`): its field values and
 * per-field errors, the validation run before submitting, and how editing
 * a field clears errors.
 */
module LoginFormModel {
  import opened Wrappers
  import opened Text
  import opened SessionStore

  const UsernameRequired := "Username is required"
  const PasswordRequired := "Password is required"

  /** A form passes validation when the trimmed username and the untrimmed password are non-empty. */
  predicate FormValid(username: string, password: string)
  {
    Trim(username) != "" && password != ""
  }

  /** The errors `validateForm` collects for these values. */
  function FormErrors(username: string, password: string): (errs: map<string, string>)
    ensures errs.Keys <= {"username", "password"}
    ensures "username" in errs <==> Trim(username) == ""
    ensures "username" in errs ==> errs["username"] == UsernameRequired
    ensures "password" in errs <==> password == ""
    ensures "password" in errs ==> errs["password"] == PasswordRequired
    ensures |errs| == 0 <==> FormValid(username, password)
  {
    var withUser: map<string, string> := if Trim(username) == "" then map["username" := UsernameRequired] else map[];
    if password == "" then withUser["password" := PasswordRequired] else withUser
  }

  /** The username is missing exactly when it is whitespace only. */
  lemma UsernameMissingIff(username: string, password: string)
    ensures "username" in FormErrors(username, password) <==> AllSpace(username)
  {
    TrimAllSpace(username);
  }

  /** A whitespace-only password passes while a whitespace-only username does not. */
  lemma OnlyUsernameTrimmed()
    ensures FormValid("alice", " ")
    ensures !FormValid(" ", "secret")
  {
    assert AllSpace(" ");
    TrimAllSpace(" ");
    assert !AllSpace("alice") by { assert !IsSpace("alice"[0]); }
    TrimAllSpace("alice");
  }

  class LoginForm {
    var formData: map<string, string>
    var errors: map<string, string>

    /** Both inputs always have a value. */
    predicate Valid()
      reads this
    {
      "username" in formData && "password" in formData
    }

    constructor()
      ensures Valid() && formData == map["username" := "", "password" := ""] && errors == map[]
    {
      formData := map["username" := "", "password" := ""];
      errors := map[];
    }

    /**
     * `handleChange`: stores the input's value, blanks that input's error
     * when it has a non-empty one, and clears the store's error when it has one.
     */
    method HandleChange(name: string, value: string, store: AuthStore)
      requires Valid() && store.Valid()
      modifies this, store`error
      ensures Valid() && store.Valid()
      ensures formData == old(formData)[name := value]
      ensures name in old(errors) && old(errors)[name] != "" ==> errors == old(errors)[name := ""]
      ensures !(name in old(errors) && old(errors)[name] != "") ==> errors == old(errors)
      ensures Truthy(old(store.error)) ==> store.error == None
      ensures !Truthy(old(store.error)) ==> store.error == old(store.error)
    {
      formData := formData[name := value];
      if name in errors && errors[name] != "" {
        errors := errors[name := ""];
      }
      if Truthy(store.error) {
        store.ClearError();
      }
    }

    /** `validateForm()`: rebuilds the errors from the current values, one check at a time. */
    method ValidateForm() returns (valid: bool)
      requires Valid()
      modifies this`errors
      ensures errors == FormErrors(formData["username"], formData["password"])
      ensures valid <==> FormValid(formData["username"], formData["password"])
    {
      var username, password := formData["username"], formData["password"];
      var newErrors: map<string, string> := map[];
      if Trim(username) == "" {
        newErrors := newErrors["username" := UsernameRequired];
      }
      if password == "" {
        newErrors := newErrors["password" := PasswordRequired];
      }
      assert newErrors == FormErrors(username, password);
      errors := newErrors;
      valid := |newErrors| == 0;
    }

    /**
     * `handleSubmit`: validates, and only a valid form calls `login`, whose
     * request settles as `response`.  `onSuccess` runs only after the login
     * succeeds; a failed login is swallowed here.
     */
    method HandleSubmit(store: AuthStore, response: Outcome<AuthResponse>) returns (loginCalled: bool, successCalled: bool)
      requires Valid() && store.Valid()
      modifies this`errors, store
      ensures store.Valid()
      ensures errors == FormErrors(formData["username"], formData["password"])
      ensures loginCalled <==> FormValid(formData["username"], formData["password"])
      ensures !loginCalled ==>
        && !successCalled && store.Identity() == old(store.Identity())
        && store.error == old(store.error) && store.isLoading == old(store.isLoading)
      ensures successCalled <==> loginCalled && response.Ok?
      ensures loginCalled ==> store.isAuthenticated == (response.Ok? || old(store.isAuthenticated))
      ensures loginCalled ==> !store.isLoading
      ensures loginCalled && response.Ok? ==>
        && store.user == Some(response.value.user)
        && store.accessToken == Some(response.value.tokens.access)
        && store.refreshToken == Some(response.value.tokens.refresh)
        && store.error == None
      ensures loginCalled && response.Err? ==>
        && store.Identity() == old(store.Identity())
        && store.error == Some(MessageOr(response.thrown, LoginFailed))
    {
      var valid := ValidateForm();
      if !valid {
        return false, false;
      }
      loginCalled := true;
      var raised := store.Login(response);
      successCalled := raised.None?;
    }
  }
}
