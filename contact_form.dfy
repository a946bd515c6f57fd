/**
 The contact modal and its form (script.js, initContactForm).

 The modal opens and closes; closing resets the form and hides the status
 message. Submitting first puts the submit button into its loading state,
 then sends the three field values to a hosted email relay; its success or
 failure decides the status message, a success also resets the form and
 schedules the modal to close two seconds later, and in both cases the
 button is restored.

 The relay call itself is not modelled: the request is returned to the
 caller and its outcome comes back as a boolean.
 */
module ContactForm {

  const SuccessText: string := "Message sent successfully!"
  const SuccessClass: string := "text-center text-sm mt-4 text-green-400"
  const ErrorText: string := "Failed to send message. Please try again."
  const ErrorClass: string := "text-center text-sm mt-4 text-red-400"

  /** The relay account the form posts to. */
  const ServiceId: string := "service_me4wgpd"
  const TemplateId: string := "template_ekyl53p"
  const PublicKey: string := "bjW4wDsl3HwtpzC4Z"

  /** Delay, in milliseconds, between a successful send and the modal closing. */
  const CloseDelayMs: nat := 2000

  /** The template parameters of one message. */
  datatype TemplateParams = TemplateParams(fromName: string, fromEmail: string, message: string)

  /** One call of the email relay. */
  datatype Request = Request(service: string, template: string, params: TemplateParams, publicKey: string)

  /** The modal, the form's fields and the submit controls. */
  class ContactModal {
    /** The modal carries the `active` class. */
    var modalActive: bool
    /** The body's overflow is set to hidden (scrolling locked). */
    var scrollLocked: bool
    var name: string
    var email: string
    var message: string
    /** The submit label is hidden. */
    var submitTextHidden: bool
    /** The loading indicator is hidden. */
    var loadingHidden: bool
    var submitDisabled: bool
    var messageText: string
    var messageClass: string
    var messageHidden: bool
    /** A relay call is awaiting its outcome. */
    var sending: bool
    /** Delayed closes scheduled and not yet fired. */
    var pendingCloses: nat

    /** The button shows its loading state, and is disabled, exactly while a
        send is outstanding. */
    ghost predicate Valid()
      reads this
    {
      && submitTextHidden == sending
      && loadingHidden == !sending
      && submitDisabled == sending
    }

    /** The page as loaded: modal closed, empty fields, ready button, no message. */
    constructor ()
      ensures Valid()
      ensures !modalActive && !scrollLocked && !sending && pendingCloses == 0
      ensures name == "" && email == "" && message == ""
      ensures messageHidden
    {
      modalActive, scrollLocked := false, false;
      name, email, message := "", "", "";
      submitTextHidden, loadingHidden, submitDisabled := false, true, false;
      messageText, messageClass, messageHidden := "", "", true;
      sending := false;
      pendingCloses := 0;
    }

    /** The open button: the modal is shown and page scrolling is locked. */
    method Open()
      modifies this`modalActive, this`scrollLocked
      ensures modalActive && scrollLocked
    {
      modalActive := true;
      scrollLocked := true;
    }

    /** The user edits the fields. */
    method Edit(name': string, email': string, message': string)
      modifies this`name, this`email, this`message
      ensures name == name' && email == email' && message == message'
    {
      name, email, message := name', email', message';
    }

    /** Closing (button, overlay, Escape or the delayed close), as it stands
        once the fade-out completes: modal hidden, scrolling unlocked, form
        reset, status message hidden. */
    method CloseModal()
      modifies this`modalActive, this`scrollLocked, this`name, this`email, this`message, this`messageHidden
      ensures !modalActive && !scrollLocked && messageHidden
      ensures name == "" && email == "" && message == ""
    {
      modalActive := false;
      scrollLocked := false;
      name, email, message := "", "", "";
      messageHidden := true;
    }

    /** A key press: Escape closes an open modal, anything else does nothing. */
    method KeyDown(key: string)
      modifies this`modalActive, this`scrollLocked, this`name, this`email, this`message, this`messageHidden
      ensures key == "Escape" && old(modalActive) ==>
        !modalActive && !scrollLocked && messageHidden && name == "" && email == "" && message == ""
      ensures !(key == "Escape" && old(modalActive)) ==>
        modalActive == old(modalActive) && scrollLocked == old(scrollLocked) &&
        name == old(name) && email == old(email) && message == old(message) &&
        messageHidden == old(messageHidden)
    {
      if key == "Escape" && modalActive {
        CloseModal();
      }
    }

    /** The submit handler up to the relay call: loading state on, message
        hidden; returns the request carrying the current field values. The
        button is disabled while a send is outstanding, so no second submit
        starts meanwhile. */
    method BeginSubmit() returns (req: Request)
      requires Valid() && !submitDisabled
      modifies this`submitTextHidden, this`loadingHidden, this`submitDisabled, this`messageHidden, this`sending
      ensures Valid()
      ensures sending && submitDisabled && !loadingHidden && submitTextHidden
      ensures messageHidden
      ensures req == Request(ServiceId, TemplateId, TemplateParams(name, email, message), PublicKey)
    {
      submitTextHidden := true;
      loadingHidden := false;
      submitDisabled := true;
      messageHidden := true;
      sending := true;
      req := Request(ServiceId, TemplateId, TemplateParams(name, email, message), PublicKey);
    }

    /** The rest of the handler once the relay answers `ok` or fails. On
        success: success message shown, form reset, a close scheduled. On
        failure: error message shown, fields kept, nothing scheduled. In both
        cases the button is ready again. */
    method SettleSubmit(ok: bool)
      requires Valid() && sending
      modifies this`messageText, this`messageClass, this`messageHidden, this`name, this`email,
        this`message, this`pendingCloses, this`submitTextHidden, this`loadingHidden,
        this`submitDisabled, this`sending
      ensures Valid()
      ensures !sending && !submitDisabled && loadingHidden && !submitTextHidden
      ensures !messageHidden
      ensures ok ==> messageText == SuccessText && messageClass == SuccessClass
      ensures ok ==> name == "" && email == "" && message == ""
      ensures ok ==> pendingCloses == old(pendingCloses) + 1
      ensures !ok ==> messageText == ErrorText && messageClass == ErrorClass
      ensures !ok ==> name == old(name) && email == old(email) && message == old(message)
      ensures !ok ==> pendingCloses == old(pendingCloses)
    {
      if ok {
        messageText := SuccessText;
        messageClass := SuccessClass;
        messageHidden := false;
        name, email, message := "", "", "";
        pendingCloses := pendingCloses + 1;
      } else {
        messageText := ErrorText;
        messageClass := ErrorClass;
        messageHidden := false;
      }
      submitTextHidden := false;
      loadingHidden := true;
      submitDisabled := false;
      sending := false;
    }

    /** A whole submission whose relay call has outcome `ok`. The modal stays
        as it is until a scheduled close fires. */
    method Submit(ok: bool) returns (req: Request)
      requires Valid() && !submitDisabled
      modifies this
      ensures Valid()
      ensures req.params == TemplateParams(old(name), old(email), old(message))
      ensures !submitDisabled && loadingHidden && !submitTextHidden && !messageHidden
      ensures modalActive == old(modalActive) && scrollLocked == old(scrollLocked)
      ensures ok ==> messageText == SuccessText && messageClass == SuccessClass
      ensures ok ==> name == "" && email == "" && message == ""
      ensures ok ==> pendingCloses == old(pendingCloses) + 1
      ensures !ok ==> messageText == ErrorText && messageClass == ErrorClass
      ensures !ok ==> name == old(name) && email == old(email) && message == old(message)
      ensures !ok ==> pendingCloses == old(pendingCloses)
    {
      req := BeginSubmit();
      SettleSubmit(ok);
    }

    /** A scheduled close fires, `CloseDelayMs` after its submission. */
    method CloseTimerFires()
      requires pendingCloses > 0
      modifies this`pendingCloses, this`modalActive, this`scrollLocked, this`name, this`email,
        this`message, this`messageHidden
      ensures pendingCloses == old(pendingCloses) - 1
      ensures !modalActive && !scrollLocked && messageHidden
      ensures name == "" && email == "" && message == ""
    {
      pendingCloses := pendingCloses - 1;
      CloseModal();
    }
  }
}
