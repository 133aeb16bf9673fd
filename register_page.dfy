/**
 * The registration page's controls: the show/hide buttons of the two
 * password inputs, the custom validity of the confirmation input, and the
 * highlight of the chosen role card.
 */
module RegisterPage {

  const Mismatch := "Passwords do not match"

  /** A password input's `type` and the class list of its toggle button's icon. */
  datatype Visibility = Visibility(fieldType: string, icon: set<string>)

  /** Masked as a password with the open eye, or shown as text with the slashed eye. */
  predicate Consistent(v: Visibility)
  {
    (v.fieldType == "password" && "bi-eye" in v.icon && "bi-eye-slash" !in v.icon) ||
    (v.fieldType == "text" && "bi-eye-slash" in v.icon && "bi-eye" !in v.icon)
  }

  /**
   * A toggle click: a masked input is shown as text with the slashed eye;
   * any other is masked with the open eye. Other icon classes stay.
   */
  function Toggled(v: Visibility): (r: Visibility)
    ensures r.fieldType == if v.fieldType == "password" then "text" else "password"
    ensures ("bi-eye-slash" in r.icon <==> r.fieldType == "text") && ("bi-eye" in r.icon <==> r.fieldType == "password")
    ensures r.icon - {"bi-eye", "bi-eye-slash"} == v.icon - {"bi-eye", "bi-eye-slash"}
    ensures Consistent(r)
  {
    if v.fieldType == "password" then Visibility("text", v.icon - {"bi-eye"} + {"bi-eye-slash"})
    else Visibility("password", v.icon - {"bi-eye-slash"} + {"bi-eye"})
  }

  /** Two clicks on a toggle restore the input and its icon. */
  lemma ToggledTwice(v: Visibility)
    requires Consistent(v)
    ensures Toggled(Toggled(v)) == v
  {
    var r := Toggled(Toggled(v));
    assert forall c :: c in r.icon <==> c in v.icon;
  }

  /** The validity message the confirmation input is given. */
  function ConfirmValidity(password: string, confirm: string): (m: string)
    ensures m == "" <==> password == confirm
    ensures m != "" ==> m == Mismatch
  {
    if password != confirm then Mismatch else ""
  }

  /**
   * The registration form's controls: the two password inputs with their
   * toggles, their values, the confirmation's custom validity message, and
   * the class lists of the role cards in document order.
   */
  class RegisterForm {
    var password: Visibility
    var confirm: Visibility
    var passwordValue: string
    var confirmValue: string
    var confirmValidity: string
    var roleCards: seq<set<string>>

    constructor (password: Visibility, confirm: Visibility, roleCards: seq<set<string>>)
      ensures this.password == password && this.confirm == confirm
      ensures passwordValue == "" && confirmValue == "" && confirmValidity == ""
      ensures this.roleCards == roleCards
    {
      this.password := password;
      this.confirm := confirm;
      passwordValue, confirmValue, confirmValidity := "", "", "";
      this.roleCards := roleCards;
    }

    /** The `#togglePassword` click: only the password input and its icon change. */
    method TogglePassword()
      modifies this`password
      ensures password == Toggled(old(password))
    {
      password := Toggled(password);
    }

    /** The `#toggleConfirmPassword` click: only the confirmation input and its icon change. */
    method ToggleConfirmPassword()
      modifies this`confirm
      ensures confirm == Toggled(old(confirm))
    {
      confirm := Toggled(confirm);
    }

    /** Typing `value` into the confirmation input re-checks it against the password. */
    method OnConfirmInput(value: string)
      modifies this`confirmValue, this`confirmValidity
      ensures confirmValue == value
      ensures confirmValidity == "" <==> value == passwordValue
      ensures confirmValidity != "" ==> confirmValidity == Mismatch
    {
      confirmValue := value;
      confirmValidity := ConfirmValidity(passwordValue, value);
    }

    /**
     * Typing into the password input: the page has no listener there, so the
     * confirmation's validity message is not re-checked.
     */
    method OnPasswordInput(value: string)
      modifies this`passwordValue
      ensures passwordValue == value
    {
      passwordValue := value;
    }

    /**
     * The `change` listener of the radio in role card `k`: `selected` is
     * removed from every card, then added to card `k`; so afterwards exactly
     * that card is selected and no other class changes.
     */
    method SelectRole(k: nat)
      requires k < |roleCards|
      modifies this`roleCards
      ensures |roleCards| == |old(roleCards)|
      ensures forall i :: 0 <= i < |roleCards| ==> ("selected" in roleCards[i] <==> i == k)
      ensures forall i :: 0 <= i < |roleCards| ==> roleCards[i] - {"selected"} == old(roleCards)[i] - {"selected"}
    {
      var i := 0;
      while i < |roleCards|
        invariant 0 <= i <= |roleCards| == |old(roleCards)|
        invariant forall j :: 0 <= j < i ==> roleCards[j] == old(roleCards)[j] - {"selected"}
        invariant forall j :: i <= j < |roleCards| ==> roleCards[j] == old(roleCards)[j]
      {
        roleCards := roleCards[i := roleCards[i] - {"selected"}];
        i := i + 1;
      }
      roleCards := roleCards[k := roleCards[k] + {"selected"}];
    }
  }

  /** Each toggle leaves the other input alone, and two clicks on one restore it. */
  method TogglesIndependent(password: Visibility, confirm: Visibility) returns (p: Visibility, c: Visibility)
    requires Consistent(password)
    ensures p == password && c == Toggled(confirm)
  {
    var form := new RegisterForm(password, confirm, []);
    form.TogglePassword();
    form.ToggleConfirmPassword();
    form.TogglePassword();
    ToggledTwice(password);
    p, c := form.password, form.confirm;
  }

  /**
   * Once the confirmation has been accepted, changing the password leaves the
   * accepted state in place even though the two values now differ.
   */
  method StaleConfirmation(first: string, second: string) returns (validity: string, same: bool)
    requires first != second
    ensures validity == "" && !same
  {
    var form := new RegisterForm(Visibility("password", {}), Visibility("password", {}), []);
    form.OnPasswordInput(first);
    form.OnConfirmInput(first);
    form.OnPasswordInput(second);
    validity, same := form.confirmValidity, form.passwordValue == form.confirmValue;
  }
}
