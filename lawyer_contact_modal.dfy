/**
 * The dialog for contacting a lawyer (components/lawyers/lawyer-contact-modal.tsx):
 * a form step, a consent step and a success step, with a simulated send.
 */
module LawyerContactModal {
  import opened Wrappers
  import opened LawyersDatabase

  datatype Step = FormStep | ConsentStep | SuccessStep

  datatype FormData = FormData(
    name: string,
    email: string,
    phone: string,
    subject: string,
    message: string,
    includeDocumentSummary: bool,
    attachDocument: bool)

  datatype Consent = Consent(shareContact: bool, shareDocument: bool, agreeTerms: bool)

  const EmptyForm := FormData("", "", "", "", "", false, false)
  const NoConsent := Consent(false, false, false)

  /** One edit the form's inputs make; no input sets `attachDocument`. */
  datatype FormEdit =
    | SetName(name: string)
    | SetEmail(email: string)
    | SetPhone(phone: string)
    | SetSubject(subject: string)
    | SetMessage(message: string)
    | SetIncludeDocumentSummary(summary: bool)

  function ApplyEdit(f: FormData, e: FormEdit): (r: FormData)
    ensures r.attachDocument == f.attachDocument
  {
    match e
    case SetName(x) => f.(name := x)
    case SetEmail(x) => f.(email := x)
    case SetPhone(x) => f.(phone := x)
    case SetSubject(x) => f.(subject := x)
    case SetMessage(x) => f.(message := x)
    case SetIncludeDocumentSummary(x) => f.(includeDocumentSummary := x)
  }

  /** The browser's check of the form's `required` inputs before it submits. */
  predicate RequiredFilled(f: FormData) {
    f.name != "" && f.phone != "" && f.email != "" && f.subject != "" && f.message != ""
  }

  /** The send button is enabled: both mandatory consents, the document consent when a summary is included, and no send under way. */
  predicate SendEnabled(c: Consent, f: FormData, sending: bool) {
    !(!c.shareContact || !c.agreeTerms || (f.includeDocumentSummary && !c.shareDocument) || sending)
  }

  /** Sending needs the contact and terms consents, and the document consent exactly when a summary is included. */
  lemma SendNeedsConsent(c: Consent, f: FormData, sending: bool)
    ensures SendEnabled(c, f, sending) <==>
              c.shareContact && c.agreeTerms && (!f.includeDocumentSummary || c.shareDocument) && !sending
  {
  }

  class ContactModal {
    var lawyer: Option<Lawyer>
    var step: Step
    var formData: FormData
    var consent: Consent
    var sending: bool
    /** How many times the parent's `onClose` has been called. */
    var closeCalls: nat

    /** No edit ever sets `attachDocument`. */
    predicate Valid()
      reads this
    {
      !formData.attachDocument
    }

    /** Nothing is rendered without a lawyer. */
    predicate Rendered()
      reads this
    {
      lawyer.Some?
    }

    constructor(lawyer: Option<Lawyer>)
      ensures Valid()
      ensures this.lawyer == lawyer && step == FormStep && formData == EmptyForm && consent == NoConsent
      ensures !sending && closeCalls == 0
    {
      this.lawyer := lawyer;
      step := FormStep;
      formData := EmptyForm;
      consent := NoConsent;
      sending := false;
      closeCalls := 0;
    }

    method EditForm(e: FormEdit)
      requires Valid()
      modifies this`formData
      ensures Valid()
      ensures formData == ApplyEdit(old(formData), e)
    {
      formData := ApplyEdit(formData, e);
    }

    /** The consent checkboxes. */
    method SetConsent(c: Consent)
      modifies this`consent
      ensures consent == c
    {
      consent := c;
    }

    /** `handleFormSubmit`, reached only when the required inputs are filled. */
    method SubmitForm()
      modifies this`step
      ensures RequiredFilled(formData) ==> step == ConsentStep
      ensures !RequiredFilled(formData) ==> step == old(step)
    {
      if RequiredFilled(formData) {
        step := ConsentStep;
      }
    }

    /** Back, from the consent step: the form and the consents are kept. */
    method Back()
      modifies this`step
      ensures step == FormStep
    {
      step := FormStep;
    }

    /** Clicking send: a disabled button does nothing, otherwise the send starts. */
    method ClickSend()
      modifies this`sending
      ensures SendEnabled(old(consent), formData, old(sending)) ==> sending
      ensures !SendEnabled(old(consent), formData, old(sending)) ==> sending == old(sending)
    {
      if SendEnabled(consent, formData, sending) {
        sending := true;
      }
    }

    /** The simulated 1.5 s send completes. */
    method FinishSend()
      modifies this`sending, this`step
      ensures !sending && step == SuccessStep
    {
      sending := false;
      step := SuccessStep;
    }

    /** `handleClose`, from any step: back to an empty form without consents, and the parent is told. */
    method Close()
      requires Valid()
      modifies this`step, this`formData, this`consent, this`closeCalls
      ensures Valid()
      ensures step == FormStep && formData == EmptyForm && consent == NoConsent
      ensures closeCalls == old(closeCalls) + 1
    {
      step := FormStep;
      formData := EmptyForm;
      consent := NoConsent;
      closeCalls := closeCalls + 1;
    }
  }

  /** A full run: filling the form, consenting and sending ends on the success step. */
  method HappyPath(l: Lawyer, f: FormData, c: Consent) returns (m: ContactModal)
    requires !f.attachDocument && RequiredFilled(f) && SendEnabled(c, f, false)
    ensures m.step == SuccessStep && !m.sending && m.Valid()
  {
    m := new ContactModal(Some(l));
    m.EditForm(SetName(f.name));
    m.EditForm(SetEmail(f.email));
    m.EditForm(SetPhone(f.phone));
    m.EditForm(SetSubject(f.subject));
    m.EditForm(SetMessage(f.message));
    m.EditForm(SetIncludeDocumentSummary(f.includeDocumentSummary));
    assert m.formData == f;
    m.SubmitForm();
    m.SetConsent(c);
    m.ClickSend();
    assert m.sending;
    m.FinishSend();
  }
}
