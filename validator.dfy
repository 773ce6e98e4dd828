/** The request validator (`MessageValidator.ValidateRequest`). */
module Validation {
  import opened Wrappers
  import opened Messaging

  const SenderRequired: string := "Sender phone number is required."
  const ReceiverRequired: string := "Receiver phone number is required."
  const MessageRequired: string := "Message content is required."

  /** The characters .NET's `Char.IsWhiteSpace` accepts. */
  predicate IsWhiteSpace(c: char) {
    || '\U{0009}' <= c <= '\U{000D}'
    || c == ' ' || c == '\U{0085}' || c == '\U{00A0}' || c == '\U{1680}'
    || '\U{2000}' <= c <= '\U{200A}'
    || c == '\U{2028}' || c == '\U{2029}' || c == '\U{202F}' || c == '\U{205F}' || c == '\U{3000}'
  }

  /** `string.IsNullOrWhiteSpace`. */
  predicate IsNullOrWhiteSpace(s: Option<string>) {
    match s
    case None => true
    case Some(str) => forall i :: 0 <= i < |str| ==> IsWhiteSpace(str[i])
  }

  datatype ValidationResult = ValidationResult(isValid: bool, errorMessage: Option<string>)

  /** The first blank field, in the order sender, receiver, message, decides the error. */
  function ValidateRequest(request: SmsRequest): (r: ValidationResult)
    ensures r.isValid <==>
      && !IsNullOrWhiteSpace(request.senderPhoneNumber)
      && !IsNullOrWhiteSpace(request.receiverPhoneNumber)
      && !IsNullOrWhiteSpace(request.message)
    ensures r.isValid <==> r.errorMessage == None
    ensures IsNullOrWhiteSpace(request.senderPhoneNumber) ==> r.errorMessage == Some(SenderRequired)
    ensures (!IsNullOrWhiteSpace(request.senderPhoneNumber) && IsNullOrWhiteSpace(request.receiverPhoneNumber))
      ==> r.errorMessage == Some(ReceiverRequired)
    ensures (&& !IsNullOrWhiteSpace(request.senderPhoneNumber)
             && !IsNullOrWhiteSpace(request.receiverPhoneNumber)
             && IsNullOrWhiteSpace(request.message))
      ==> r.errorMessage == Some(MessageRequired)
  {
    if IsNullOrWhiteSpace(request.senderPhoneNumber) then ValidationResult(false, Some(SenderRequired))
    else if IsNullOrWhiteSpace(request.receiverPhoneNumber) then ValidationResult(false, Some(ReceiverRequired))
    else if IsNullOrWhiteSpace(request.message) then ValidationResult(false, Some(MessageRequired))
    else ValidationResult(true, None)
  }

  /**
   * Only blankness matters: two requests whose fields are blank in the same
   * places (a " " where the other has "" or null) get the same verdict.
   */
  lemma BlanknessDecides(a: SmsRequest, b: SmsRequest)
    requires IsNullOrWhiteSpace(a.senderPhoneNumber) == IsNullOrWhiteSpace(b.senderPhoneNumber)
    requires IsNullOrWhiteSpace(a.receiverPhoneNumber) == IsNullOrWhiteSpace(b.receiverPhoneNumber)
    requires IsNullOrWhiteSpace(a.message) == IsNullOrWhiteSpace(b.message)
    ensures ValidateRequest(a) == ValidateRequest(b)
  {
  }

  /** The unit-test cases: whitespace-only strings are refused like empty ones. */
  lemma WhiteSpaceIsBlank(s: string)
    requires forall i :: 0 <= i < |s| ==> IsWhiteSpace(s[i])
    ensures var ok := Some("+1234567890");
      && ValidateRequest(SmsRequest(Some(s), ok, ok)).errorMessage == Some(SenderRequired)
      && ValidateRequest(SmsRequest(ok, Some(s), ok)).errorMessage == Some(ReceiverRequired)
      && ValidateRequest(SmsRequest(ok, ok, Some(s))).errorMessage == Some(MessageRequired)
  {
    var ok := "+1234567890";
    assert !IsWhiteSpace(ok[0]);
  }
}
