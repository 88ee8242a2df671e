/**
 The contact-form handler: it validates the form, resolves the recipient and the
 subject prefix from the stored e-mail configuration over the defaults, composes the
 message and hands it to the e-mail delivery service.
 */
module Contact {
  import opened Options
  import opened Text
  import opened Json
  import opened Http
  import opened Kv
  import EmailConfig

  const Methods: seq<string> := ["POST"]
  const Sender: string := "noreply@walk4health.co.nz"
  const Generic: string := "Failed to process contact form. Please try again later."
  const Thanks: string := "Contact form submitted successfully. We will get back to you soon!"

  /** All four form fields are given. */
  predicate ValidBody(body: map<string, Json>) {
    FieldTruthy(body, "name") && FieldTruthy(body, "email")
    && FieldTruthy(body, "subject") && FieldTruthy(body, "message")
  }

  /** Where the mail goes and what its subject starts with. */
  datatype Settings = Settings(to: Json, prefix: Json)

  const Defaults: Settings :=
    Settings(JStr(EmailConfig.DefaultInquiryEmail), JStr(EmailConfig.DefaultSubjectPrefix))

  /** The message handed to the delivery service; `html` and `text` stand for the
      message part of the two bodies, the surrounding template is not modelled. */
  datatype Email = Email(
    from: string, to: Json, subject: string,
    name: string, address: string, topic: string,
    html: string, text: string)

  /** The stored configuration has the field `k` and it is truthy. */
  predicate Overrides(config: Value, k: string) {
    Property(config, k).Defined? && Truthy(Property(config, k).v)
  }

  /** The settings after reading the stored configuration: each default is replaced by
      the stored field when that field is truthy; a failed or empty read keeps both
      defaults; reading a field of a stored `null` throws (`None`). */
  function Resolve(o: Outcome): (r: Option<Settings>)
    ensures r.None? <==> o == Found(Null)
    ensures r.Some? ==> Truthy(r.value.to) && Truthy(r.value.prefix)
    ensures !o.Found? ==> r == Some(Defaults)
    ensures o.Found? && r.Some? ==>
      r.value.to == (if Overrides(o.value, "inquiryEmail") then Property(o.value, "inquiryEmail").v else Defaults.to)
    ensures o.Found? && r.Some? ==>
      r.value.prefix == (if Overrides(o.value, "subjectPrefix") then Property(o.value, "subjectPrefix").v else Defaults.prefix)
  {
    if !o.Found? then Some(Defaults)
    else
      var to := Property(o.value, "inquiryEmail");
      var prefix := Property(o.value, "subjectPrefix");
      if to.TypeError? || prefix.TypeError? then None
      else Some(Settings(OrElse(to, Defaults.to), OrElse(prefix, Defaults.prefix)))
  }

  /** A configuration stored by the e-mail configuration handler is used as posted:
      its address, and its prefix (which that handler already defaulted). */
  lemma ResolveStored(body: map<string, Json>, stamp: string)
    requires FieldTruthy(body, "inquiryEmail")
    ensures Resolve(Found(Doc(EmailConfig.Document(body, stamp)))) ==
      Some(Settings(body["inquiryEmail"],
                    if FieldTruthy(body, "subjectPrefix") then body["subjectPrefix"] else Defaults.prefix))
  {
  }

  /** The message for a valid form whose `message` is a string. */
  function Compose(s: Settings, body: map<string, Json>): (e: Email)
    requires ValidBody(body) && body["message"].JStr?
    ensures e.from == Sender && e.to == s.to
    ensures e.subject == Render(s.prefix) + " " + Render(body["subject"])
    ensures e.name == Render(body["name"]) && e.address == Render(body["email"]) && e.topic == Render(body["subject"])
    ensures e.text == body["message"].s
    ensures e.html == NewlinesToBreaks(e.text)
    ensures '\n' !in e.html && |e.html| == |e.text| + 3 * Count(e.text, '\n')
  {
    var message := body["message"].s;
    Email(Sender, s.to, Render(s.prefix) + " " + Render(body["subject"]),
          Render(body["name"]), Render(body["email"]), Render(body["subject"]),
          NewlinesToBreaks(message), message)
  }

  /** A message without line breaks keeps its text in the HTML body unchanged. */
  lemma ComposeSingleLine(s: Settings, body: map<string, Json>)
    requires ValidBody(body) && body["message"].JStr? && '\n' !in body["message"].s
    ensures Compose(s, body).html == Compose(s, body).text
  {
    NewlinesToBreaksNoNewline(body["message"].s);
  }

  /** The handler for `/api/contact`. `delivered` is whether the delivery service answers
      ok; `sent` is the message handed to it, if the handler got that far. The handler
      only reads the store. */
  method Handle(kv: KvStore, req: Request, env: Env, delivered: bool) returns (resp: Response, sent: Option<Email>)
    modifies kv
    ensures kv.data == old(kv.data)
    ensures req.verb != "POST" ==>
      resp == NotAllowed(req.verb, Methods) && sent == None && kv.log == old(kv.log)
    ensures req.verb == "POST" && !ValidBody(req.body) ==>
      resp == Failure(400, "Missing required fields") && sent == None && kv.log == old(kv.log)
    ensures req.verb == "POST" && ValidBody(req.body) && !RedisConfigured(env.vars) ==>
      resp == Failure(500, "Email configuration not available") && sent == None && kv.log == old(kv.log)
    ensures req.verb == "POST" && ValidBody(req.body) && RedisConfigured(env.vars) ==>
      var settings := Resolve(Fetch(old(kv.data), EmailConfig.Key, env.getOk));
      kv.log == old(kv.log) + [GetCall(EmailConfig.Key)]
      && (settings.None? ==> resp == Failure(500, Generic) && sent == None)
      && (settings.Some? && !env.vars.sendKey ==>
            resp == Failure(500, "Email service not configured") && sent == None)
      && (settings.Some? && env.vars.sendKey && !req.body["message"].JStr? ==>
            resp == Failure(500, Generic) && sent == None)
      && (settings.Some? && env.vars.sendKey && req.body["message"].JStr? ==>
            sent == Some(Compose(settings.value, req.body))
            && resp == (if delivered then Success(Thanks) else Failure(500, Generic)))
  {
    sent := None;
    if req.verb != "POST" {
      return NotAllowed(req.verb, Methods), None;
    }
    if !ValidBody(req.body) {
      return Failure(400, "Missing required fields"), None;
    }
    if !RedisConfigured(env.vars) {
      return Failure(500, "Email configuration not available"), None;
    }
    var config := kv.Get(EmailConfig.Key, env.getOk);
    var inquiryEmail := Defaults.to;
    var subjectPrefix := Defaults.prefix;
    if config.Found? {
      var to := Property(config.value, "inquiryEmail");
      if to.TypeError? {
        return Failure(500, Generic), None;
      }
      inquiryEmail := OrElse(to, inquiryEmail);
      var prefix := Property(config.value, "subjectPrefix");
      subjectPrefix := OrElse(prefix, subjectPrefix);
    }
    if !env.vars.sendKey {
      return Failure(500, "Email service not configured"), None;
    }
    if !req.body["message"].JStr? {
      return Failure(500, Generic), None;
    }
    sent := Some(Compose(Settings(inquiryEmail, subjectPrefix), req.body));
    resp := if delivered then Success(Thanks) else Failure(500, Generic);
  }

  /** After the e-mail configuration handler stored a configuration, a contact
      submission is sent to the posted address. */
  method ConfigureThenContact(kv: KvStore, configBody: map<string, Json>, form: map<string, Json>, env: Env)
    returns (sent: Option<Email>)
    requires FieldTruthy(configBody, "inquiryEmail") && RedisConfigured(env.vars)
    requires env.setOk && env.getOk && env.vars.sendKey
    requires ValidBody(form) && form["message"].JStr?
    modifies kv
    ensures sent.Some? && sent.value.to == configBody["inquiryEmail"]
  {
    var _ := EmailConfig.Handle(kv, Request("POST", map[], configBody), env);
    ResolveStored(configBody, env.stamp);
    var _, s := Handle(kv, Request("POST", map[], form), env, true);
    sent := s;
  }
}
