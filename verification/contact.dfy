/**
 * The `POST /api/contact` handler: validate the form, render two emails,
 * send them one after the other, and choose the HTTP response.
 *
 * The email provider is an oracle: `adminSend` and `customerSend` are what
 * the first and the second `emails.send` call would do if made.
 */
module Contact {
  import opened Wrappers
  import opened Text

  const DefaultAdminEmail := "admin@trendbase.com"
  const DefaultFromEmail := "onboarding@resend.dev"
  const NotProvided := "Not provided"
  const NotSpecified := "Not specified"
  const AdminSubjectPrefix := "New Contact Form Submission - "
  const CustomerSubject := "Thank you for contacting Trendbase"

  const MissingFields := "Missing required fields"
  const SendFailed := "Failed to send email"
  const InternalError := "Internal server error"
  const Submitted := "Contact form submitted successfully"

  /** The JSON body's fields; a missing or `null` field is `None`. */
  datatype ContactForm = ContactForm(
    firstName: Option<string>,
    lastName: Option<string>,
    email: Option<string>,
    phone: Option<string>,
    businessName: Option<string>,
    businessType: Option<string>,
    locations: Option<string>,
    message: Option<string>)

  /** `request.json()` either fails or yields the form. */
  datatype RequestBody = Unparseable | Json(form: ContactForm)

  /** The two environment variables the handler reads. */
  datatype Env = Env(adminEmail: Option<string>, fromEmail: Option<string>)

  /** What one `emails.send` call does: throw, resolve to nothing, or resolve
      to a response carrying `data` and/or `error`. */
  datatype SendOutcome =
    | SendThrew
    | SendReturnedNothing
    | SendReturned(data: Option<string>, error: Option<string>)

  /** The field values the emails render (the HTML around them is not modelled). */
  datatype EmailBody =
    | AdminNotice(name: string, email: string, phone: string, businessName: string,
                  businessType: string, locations: string, message: string)
    | Acknowledgement(firstName: string)

  datatype Email = Email(from: string, to: seq<string>, subject: string, body: EmailBody)

  datatype Response = Response(status: int, isError: bool, text: string)

  /** The response and every send attempted on the way to it. */
  datatype Exchange = Exchange(response: Response, attempted: seq<Email>)

  /** `!firstName || !lastName || !email || !businessName || !message` is false. */
  predicate HasRequiredFields(f: ContactForm) {
    Truthy(f.firstName) && Truthy(f.lastName) && Truthy(f.email)
    && Truthy(f.businessName) && Truthy(f.message)
  }

  function AdminAddress(env: Env): (a: string)
    ensures a != ""
    ensures Truthy(env.adminEmail) ==> a == env.adminEmail.value
    ensures !Truthy(env.adminEmail) ==> a == DefaultAdminEmail
  {
    OrElse(env.adminEmail, DefaultAdminEmail)
  }

  function FromAddress(env: Env): (a: string)
    ensures a != ""
    ensures Truthy(env.fromEmail) ==> a == env.fromEmail.value
    ensures !Truthy(env.fromEmail) ==> a == DefaultFromEmail
  {
    OrElse(env.fromEmail, DefaultFromEmail)
  }

  /** The notification to the operator. */
  function AdminEmail(f: ContactForm, env: Env): (m: Email)
    requires HasRequiredFields(f)
    ensures m.from == "Contact Form <" + FromAddress(env) + ">"
    ensures m.to == [AdminAddress(env)]
    ensures m.subject == AdminSubjectPrefix + f.businessName.value
    ensures m.body.AdminNotice?
    ensures m.body.name == f.firstName.value + " " + f.lastName.value
    ensures m.body.email == f.email.value
    ensures m.body.businessName == f.businessName.value
    ensures m.body.message == f.message.value
    ensures m.body.phone == (if Truthy(f.phone) then f.phone.value else NotProvided)
    ensures m.body.businessType == (if Truthy(f.businessType) then f.businessType.value else NotSpecified)
    ensures m.body.locations == (if Truthy(f.locations) then f.locations.value else NotSpecified)
  {
    Email("Contact Form <" + FromAddress(env) + ">", [AdminAddress(env)],
          AdminSubjectPrefix + f.businessName.value,
          AdminNotice(f.firstName.value + " " + f.lastName.value, f.email.value,
                      OrElse(f.phone, NotProvided), f.businessName.value,
                      OrElse(f.businessType, NotSpecified), OrElse(f.locations, NotSpecified),
                      f.message.value))
  }

  /** The acknowledgement to the submitter. */
  function CustomerEmail(f: ContactForm, env: Env): (m: Email)
    requires HasRequiredFields(f)
    ensures m.from == "Trendbase <" + FromAddress(env) + ">"
    ensures m.to == [f.email.value]
    ensures m.subject == CustomerSubject
    ensures m.body == Acknowledgement(f.firstName.value)
  {
    Email("Trendbase <" + FromAddress(env) + ">", [f.email.value], CustomerSubject,
          Acknowledgement(f.firstName.value))
  }

  /** The handler's decision once both sends have returned, in the order
      the handler makes it: reading `.data || .id` of a missing result throws
      (an internal error); any two results count as success, even ones that
      carry an `error`; an error on a single result is a send failure; and
      everything else succeeds. */
  function DecideAfterSends(admin: SendOutcome, customer: SendOutcome): Response
  {
    if admin.SendReturnedNothing? || customer.SendReturnedNothing? then
      Response(500, true, InternalError)
    else if admin.SendReturned? && customer.SendReturned? then
      Response(200, false, Submitted)
    else if (admin.SendReturned? && admin.error.Some?) || (customer.SendReturned? && customer.error.Some?) then
      Response(500, true, SendFailed)
    else
      Response(200, false, Submitted)
  }

  /** `POST(request)`. */
  function HandleContact(body: RequestBody, env: Env, adminSend: SendOutcome,
                         customerSend: SendOutcome): (x: Exchange)
    ensures x.response.status in {200, 400, 500}
    ensures x.response.isError <==> x.response.status != 200
    ensures x.response.status == 400 <==> body.Json? && !HasRequiredFields(body.form)
    ensures x.response.status == 400 ==> x.response.text == MissingFields && x.attempted == []
    ensures x.response.status == 500 ==> x.response.text == InternalError
    ensures x.response.status == 200 <==>
              body.Json? && HasRequiredFields(body.form)
              && adminSend.SendReturned? && customerSend.SendReturned?
    ensures x.response.status == 200 ==> x.response.text == Submitted && !x.response.isError
    ensures body.Json? && HasRequiredFields(body.form) ==>
              && |x.attempted| >= 1
              && x.attempted[0] == AdminEmail(body.form, env)
              && (!adminSend.SendThrew? ==>
                    x.attempted == [AdminEmail(body.form, env), CustomerEmail(body.form, env)])
              && (adminSend.SendThrew? ==> |x.attempted| == 1)
    ensures !(body.Json? && HasRequiredFields(body.form)) ==> x.attempted == []
  {
    match body
    case Unparseable => Exchange(Response(500, true, InternalError), [])
    case Json(f) =>
      if !HasRequiredFields(f) then Exchange(Response(400, true, MissingFields), [])
      else
        var first := AdminEmail(f, env);
        if adminSend.SendThrew? then Exchange(Response(500, true, InternalError), [first])
        else
          var second := CustomerEmail(f, env);
          if customerSend.SendThrew? then Exchange(Response(500, true, InternalError), [first, second])
          else Exchange(DecideAfterSends(adminSend, customerSend), [first, second])
  }

  /** The "Failed to send email" response is unreachable: whenever the error
      check is reached, both results are objects and the check before it has
      already answered 200. */
  lemma SendFailedUnreachable(body: RequestBody, env: Env, adminSend: SendOutcome, customerSend: SendOutcome)
    ensures HandleContact(body, env, adminSend, customerSend).response.text != SendFailed
  {
  }

  /** A provider response that carries an error still yields 200. */
  lemma ProviderErrorStillSucceeds(f: ContactForm, env: Env, err: string)
    requires HasRequiredFields(f)
    ensures HandleContact(Json(f), env, SendReturned(None, Some(err)), SendReturned(None, Some(err))).response
            == Response(200, false, Submitted)
  {
  }
}
