/**
 * The delivery address step of checkout: the form data, its field update,
 * and the client-side check that enables the "Continue to Payment" button.
 */
module AddressStep {
  import opened JsString
  import opened Schema

  datatype AddressData = AddressData(customerName: string, phone: string, address: string, pinCode: string)

  datatype Field = CustomerName | Phone | Address | PinCode

  function Get(data: AddressData, field: Field): string {
    match field
    case CustomerName => data.customerName
    case Phone => data.phone
    case Address => data.address
    case PinCode => data.pinCode
  }

  /** `handleChange(field, value)`: the data handed to `onDataChange`, a
      copy with one field replaced. */
  function HandleChange(data: AddressData, field: Field, value: string): (r: AddressData)
    ensures Get(r, field) == value
    ensures forall f :: f != field ==> Get(r, f) == Get(data, f)
  {
    match field
    case CustomerName => data.(customerName := value)
    case Phone => data.(phone := value)
    case Address => data.(address := value)
    case PinCode => data.(pinCode := value)
  }

  /** Putting the old value back undoes a change. */
  lemma HandleChangeUndo(data: AddressData, field: Field, value: string)
    ensures HandleChange(HandleChange(data, field, value), field, Get(data, field)) == data
  {
  }

  /** `isValid`: a trimmed name of at least two characters, a mobile number
      matching `^[6-9]\d{9}$`, a trimmed address of at least ten characters
      and a PIN code matching `^\d{6}$`. */
  predicate IsValid(data: AddressData) {
    && |Trim(data.customerName)| >= 2
    && MatchesMobilePattern(data.phone)
    && |Trim(data.address)| >= 10
    && MatchesPinCodePattern(data.pinCode)
  }

  /** `disabled={!isValid}` on the continue button. */
  predicate ContinueDisabled(data: AddressData) {
    !IsValid(data)
  }

  /** The client check is at least as strict as the server's order schema:
      address data the button lets through, with a product, a storage and a
      valid payment type, is accepted by `insertOrderSchema` unchanged. */
  lemma ValidAddressPassesSchema(data: AddressData, productId: string, storage: string, paymentType: string)
    requires IsValid(data) && IsPaymentType(paymentType)
    ensures var input := OrderInput(Str(data.customerName), Str(data.phone), Str(data.address), Str(data.pinCode),
                                    Str(productId), Str(storage), Undefined, Str(paymentType));
      && ParseInsertOrder(input).Success?
      && ParseInsertOrder(input).value.customerName == data.customerName
      && ParseInsertOrder(input).value.phone == data.phone
      && ParseInsertOrder(input).value.address == data.address
      && ParseInsertOrder(input).value.pinCode == data.pinCode
  {
    TrimIsInfix(data.customerName);
    TrimIsInfix(data.address);
    MobilePatternIff(data.phone);
    PinCodePatternIff(data.pinCode);
  }

  /** The client check is stricter than the schema: a name made of one
      letter and a space is refused by the button but accepted by the
      schema, which counts untrimmed characters. */
  lemma ClientStricterThanSchema()
    ensures var data := AddressData("A ", "9876543210", "12 Main Road", "560001");
      && ContinueDisabled(data)
      && ParseInsertOrder(OrderInput(Str(data.customerName), Str(data.phone), Str(data.address), Str(data.pinCode),
                                     Str("p"), Str("128GB"), Undefined, Str("full"))).Success?
  {
    var data := AddressData("A ", "9876543210", "12 Main Road", "560001");
    PaddedNameRefused(data);
    SampleAccepted(data);
  }

  lemma PaddedNameRefused(data: AddressData)
    requires data.customerName == "A "
    ensures ContinueDisabled(data)
  {
    assert TrimStart("A ") == "A ";
    assert TrimEnd("A ") == TrimEnd("A");
  }

  lemma SampleAccepted(data: AddressData)
    requires data == AddressData("A ", "9876543210", "12 Main Road", "560001")
    ensures ParseInsertOrder(OrderInput(Str(data.customerName), Str(data.phone), Str(data.address), Str(data.pinCode),
                                        Str("p"), Str("128GB"), Undefined, Str("full"))).Success?
  {
    assert IsIndianMobile(data.phone) by {
      assert forall i :: 0 <= i < 10 ==> IsDigit(data.phone[i]);
    }
    assert IsPinCode(data.pinCode) by {
      assert forall i :: 0 <= i < 6 ==> IsDigit(data.pinCode[i]);
    }
  }

  /** White space typed before or after the name or the address never
      changes whether the button is enabled. */
  lemma PaddingIrrelevant(data: AddressData, a: string, b: string, c: string, d: string)
    requires AllWhitespace(a) && AllWhitespace(b) && AllWhitespace(c) && AllWhitespace(d)
    ensures IsValid(data.(customerName := a + data.customerName + b, address := c + data.address + d)) == IsValid(data)
  {
    TrimIgnoresPadding(a, data.customerName, b);
    TrimIgnoresPadding(c, data.address, d);
  }
}
