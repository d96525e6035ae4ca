/**
 * `OrganizationBillingForm.validate` (app/main/forms.py): billing e-mail
 * and billing address are optional, but giving one requires the other.
 * The declarative field validators (`Optional`, `Email`, `Length`) belong
 * to the form library; their verdict is the parameter `baseOk`.
 */
module Forms {
  import opened Wrappers
  import opened Text

  /**
   * The two messages `validate` appends: "Billing email is required when
   * billing address is provided." and "Billing address is required when
   * billing email is provided."
   */
  datatype Message = EmailRequired | AddressRequired

  class BillingForm {
    var billingEmail: Option<string>
    var billingAddress: Option<string>
    var emailErrors: seq<Message>
    var addressErrors: seq<Message>

    constructor (email: Option<string>, address: Option<string>)
      ensures billingEmail == email && billingAddress == address
      ensures emailErrors == [] && addressErrors == []
    {
      billingEmail := email;
      billingAddress := address;
      emailErrors := [];
      addressErrors := [];
    }

    /**
     * `validate`: the base verdict, turned to invalid when exactly one of
     * the two fields is given, with one error on the missing field.
     */
    method Validate(baseOk: bool) returns (ok: bool)
      modifies this
      ensures billingEmail == old(billingEmail) && billingAddress == old(billingAddress)
      ensures var (noEmail, noAddress) := MissingFields(billingEmail, billingAddress);
        && ok == (baseOk && !noEmail && !noAddress)
        && emailErrors == old(emailErrors) + (if noEmail then [EmailRequired] else [])
        && addressErrors == old(addressErrors) + (if noAddress then [AddressRequired] else [])
    {
      ok := baseOk;
      var email := Strip(billingEmail.GetOr(""));
      var address := Strip(billingAddress.GetOr(""));
      var onEmail, onAddress := emailErrors, addressErrors;
      if |email| > 0 || |address| > 0 {
        if |email| == 0 {
          onEmail := onEmail + [EmailRequired];
          ok := false;
        }
        if |address| == 0 {
          onAddress := onAddress + [AddressRequired];
          ok := false;
        }
      }
      emailErrors, addressErrors := onEmail, onAddress;
    }
  }

  /** Which field `validate` reports missing: the blank one, when the other is given. */
  function MissingFields(email: Option<string>, address: Option<string>): (bool, bool) {
    var e, a := Strip(email.GetOr("")), Strip(address.GetOr(""));
    (|e| == 0 && |a| > 0, |a| == 0 && |e| > 0)
  }

  /**
   * Whitespace counts as blank; both blank or both given reports nothing,
   * so the base verdict stands; only one given reports exactly the other;
   * and at most one field is ever reported.
   */
  lemma MissingFieldsSpec(email: Option<string>, address: Option<string>)
    ensures var (noEmail, noAddress) := MissingFields(email, address);
      && (IsBlank(email.GetOr("")) == IsBlank(address.GetOr("")) ==> !noEmail && !noAddress)
      && (!IsBlank(email.GetOr("")) && IsBlank(address.GetOr("")) ==> !noEmail && noAddress)
      && (IsBlank(email.GetOr("")) && !IsBlank(address.GetOr("")) ==> noEmail && !noAddress)
      && !(noEmail && noAddress)
      && (noEmail || noAddress <==> IsBlank(email.GetOr("")) != IsBlank(address.GetOr("")))
  {
  }
}
