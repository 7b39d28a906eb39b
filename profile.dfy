/** The profile page of src/_root/main/Profile.tsx: the update request built
    from the name and password inputs, and the saving flag around it. */
module Profile {
  import opened Wrappers
  import opened JsText

  /** The signed-in user's record as the server sends it. */
  datatype Account = Account(name: string, email: string)

  /** The body of `PUT /private/update`. */
  datatype UpdatePayload = UpdatePayload(name: string, password: Option<string>)

  /** The body `handleUpdate` sends. */
  function BuildPayload(nameInput: string, passwordInput: string): UpdatePayload {
    UpdatePayload(nameInput, if Trim(passwordInput) != "" then Some(passwordInput) else None)
  }

  /** The name is always sent; the password only when it is not blank, and
      then exactly as typed (untrimmed). */
  lemma PayloadFields(nameInput: string, passwordInput: string)
    ensures var p := BuildPayload(nameInput, passwordInput);
      p.name == nameInput &&
      (p.password.Some? <==> !AllWhitespace(passwordInput)) &&
      (p.password.Some? ==> p.password.value == passwordInput)
  {
    TrimEmptyIff(passwordInput);
  }

  class ProfilePage {
    var profile: Option<Account>
    var loading: bool
    var isSaving: bool
    var showPassword: bool
    var nameInput: string
    var passwordInput: string

    constructor (nameInput: string)
      ensures profile == None && loading && !isSaving && !showPassword
      ensures this.nameInput == nameInput && passwordInput == ""
    {
      profile := None;
      loading := true;
      isSaving := false;
      showPassword := false;
      this.nameInput := nameInput;
      passwordInput := "";
    }

    /** The effect that copies the shared user data into the page. It has no
        dependency list, so it runs after every render, and the page never
        changes the shared data. */
    method Sync(data: Option<Account>)
      modifies this
      ensures profile == data && !loading
      ensures isSaving == old(isSaving) && passwordInput == old(passwordInput)
      ensures nameInput == old(nameInput) && showPassword == old(showPassword)
    {
      profile := data;
      loading := false;
    }

    /** `handleUpdate` up to its request: the payload, and the saving flag up. */
    method StartUpdate() returns (payload: UpdatePayload)
      modifies this
      ensures payload == BuildPayload(nameInput, passwordInput)
      ensures isSaving
      ensures profile == old(profile) && passwordInput == old(passwordInput) && nameInput == old(nameInput)
      ensures loading == old(loading) && showPassword == old(showPassword)
    {
      isSaving := true;
      payload := BuildPayload(nameInput, passwordInput);
    }

    /** `handleUpdate` after its request: on success the reply becomes the
        profile and the password input is cleared; on failure both stay.
        Either way the saving flag comes down. */
    method FinishUpdate(reply: Option<Account>)
      modifies this
      ensures !isSaving
      ensures reply.Some? ==> profile == reply && passwordInput == ""
      ensures reply.None? ==> profile == old(profile) && passwordInput == old(passwordInput)
      ensures nameInput == old(nameInput) && loading == old(loading) && showPassword == old(showPassword)
    {
      if reply.Some? {
        profile := reply;
        passwordInput := "";
      }
      isSaving := false;
    }

    /** `handleUpdate` after its request, then the render its state change
        causes: the effect runs again and puts the shared data back, so a
        reply shows only until that render, while the cleared password input
        stays cleared. */
    method FinishUpdateThenRender(reply: Option<Account>, data: Option<Account>)
      modifies this
      ensures profile == data && !loading && !isSaving
      ensures reply.Some? ==> passwordInput == ""
      ensures reply.None? ==> passwordInput == old(passwordInput)
      ensures nameInput == old(nameInput) && showPassword == old(showPassword)
    {
      FinishUpdate(reply);
      Sync(data);
    }

    /** The eye button shows or hides the password. */
    method ToggleShowPassword()
      modifies this
      ensures showPassword == !old(showPassword)
      ensures profile == old(profile) && isSaving == old(isSaving) && passwordInput == old(passwordInput)
      ensures nameInput == old(nameInput) && loading == old(loading)
    {
      showPassword := !showPassword;
    }
  }
}
