/**
 * Validation feedback on one form field: the border colour the blur and focus
 * listeners set, and the `validation-error` element the email listener puts
 * directly after the field.
 */
module Fields {
  import Text
  import Email
  import Siblings

  /** The field's inline border colour. */
  datatype Border =
    | Unstyled      // no inline colour set yet
    | FocusBlue     // #2563eb
    | ErrorRed      // #ef4444
    | SuccessGreen  // #10b981

  const InvalidEmailText: string := "Please enter a valid email address"

  class Field {
    /** The field has the `required` attribute (an `input` or a `textarea`). */
    const required: bool
    /** The field is an `input` of type `email`. */
    const isEmail: bool
    var value: string
    var border: Border
    /** The element siblings after the field, nearest first. */
    var following: seq<Siblings.Element>

    /** Never two `validation-error` elements stacked directly after the field. */
    ghost predicate Valid()
      reads this
    {
      Siblings.LeadingRun(following, Siblings.ValidationErrorClass) <= 1
    }

    constructor (required: bool, isEmail: bool, value: string, following: seq<Siblings.Element>)
      requires Siblings.LeadingRun(following, Siblings.ValidationErrorClass) <= 1
      ensures Valid()
      ensures this.required == required && this.isEmail == isEmail
      ensures this.value == value && this.following == following && border == Unstyled
    {
      this.required := required;
      this.isEmail := isEmail;
      this.value := value;
      this.following := following;
      border := Unstyled;
    }

    /** The user edits the field; `v` is the `value` the script reads afterwards. */
    method Edit(v: string)
      modifies this`value
      ensures value == v
    {
      value := v;
    }

    /** `removeValidationError(input)`. */
    method RemoveValidationError()
      requires Valid()
      modifies this`following
      ensures Valid()
      ensures following == Siblings.RemoveNextWithClass(old(following), Siblings.ValidationErrorClass)
      ensures Siblings.LeadingRun(following, Siblings.ValidationErrorClass) == 0
    {
      Siblings.RemoveNextIdempotent(following, Siblings.ValidationErrorClass);
      if |following| > 0 && Siblings.HasClass(following[0], Siblings.ValidationErrorClass) {
        following := following[1..];
      }
    }

    /** `showValidationError(input, message)`. */
    method ShowValidationError(message: string)
      requires Valid()
      modifies this`following
      ensures Valid()
      ensures following == Siblings.ReplaceNext(old(following), Siblings.ValidationErrorClass, message)
      ensures Siblings.LeadingRun(following, Siblings.ValidationErrorClass) == 1 && following[0].text == message
    {
      Siblings.ReplaceNextLeavesOne(following, Siblings.ValidationErrorClass, message);
      RemoveValidationError();
      following := [Siblings.Created(Siblings.ValidationErrorClass, message)] + following;
    }

    /** The focus listener, attached to required fields only. */
    method Focus()
      modifies this`border
      ensures border == if required then FocusBlue else old(border)
    {
      if required {
        border := FocusBlue;
      }
    }

    /** The blur listeners, in the order they were attached: the required-field one, then the email one. */
    method Blur()
      requires Valid()
      modifies this`border, this`following
      ensures Valid()
      // required, not an email field: red exactly when the trimmed value is empty
      ensures required && !isEmail ==> border == (if Text.IsBlank(value) then ErrorRed else SuccessGreen)
      // an empty email value changes neither the message nor, beyond the required check, the border
      ensures isEmail && value == "" ==>
                following == old(following) && border == (if required then ErrorRed else old(border))
      // an invalid email value: red, and exactly one error element directly after the field
      ensures isEmail && value != "" && !Email.Matches(value) ==>
                border == ErrorRed
                && following == Siblings.ReplaceNext(old(following), Siblings.ValidationErrorClass, InvalidEmailText)
                && Siblings.LeadingRun(following, Siblings.ValidationErrorClass) == 1
      // a valid email value: green, and no error element after the field
      ensures isEmail && Email.Matches(value) ==>
                border == SuccessGreen
                && following == Siblings.RemoveNextWithClass(old(following), Siblings.ValidationErrorClass)
                && Siblings.LeadingRun(following, Siblings.ValidationErrorClass) == 0
      ensures !isEmail ==> following == old(following)
      ensures !required && !isEmail ==> border == old(border)
    {
      if required {
        if Text.IsBlank(value) {
          border := ErrorRed;
        } else {
          border := SuccessGreen;
        }
      }
      if isEmail {
        if value != "" && !Email.Matches(value) {
          border := ErrorRed;
          ShowValidationError(InvalidEmailText);
        } else if value != "" {
          border := SuccessGreen;
          RemoveValidationError();
        }
      }
    }
  }

  /**
   * A non-empty whitespace-only value is flagged by the required check, and the
   * pattern rejects it whenever the email listener consults it.
   */
  lemma WhitespaceOnlyIsRejected(v: string)
    requires v != [] && Text.AllWhitespace(v)
    ensures Text.IsBlank(v)
    ensures !Email.Matches(v)
  {
    if Email.Matches(v) {
      Email.MatchedHasOneAt(v);
    }
  }
}
