/**
 * The contact-form endpoint of contact.php: the checks `validate` applies to
 * the sanitized fields, the status and payload `process` answers with, and
 * the script's top level, which runs the rate limiter before anything else.
 *
 * Collaborators the endpoint calls but whose behaviour is library code are
 * parameters: `strip_tags` (stripTags), `filter_var(..., FILTER_VALIDATE_EMAIL)`
 * (isEmail) and the result of `mail()` (mailSent).
 */
module ContactForm {
  import opened Wrappers
  import opened PhpText
  import RateLimit

  const MAX_MESSAGE_LENGTH: nat := 5000

  // ----- Validation -----

  /** What is wrong with one field. */
  datatype Problem = Missing | TooShort | TooLong | Invalid | SpamDetected

  /** The five sanitized fields of a submission. */
  datatype Submission = Submission(name: string, email: string, phone: string, subject: string, message: string)

  /** The `empty -> too short -> too long` chain applied to name, subject and message. */
  function LengthProblem(s: string, min: nat, max: nat): (r: Option<Problem>)
    ensures r == Some(Missing) <==> IsEmpty(s)
    ensures r == Some(TooShort) <==> !IsEmpty(s) && ByteLen(s) < min
    ensures r == Some(TooLong) <==> !IsEmpty(s) && min <= ByteLen(s) && max < ByteLen(s)
    ensures r == None <==> !IsEmpty(s) && min <= ByteLen(s) <= max
  {
    if IsEmpty(s) then Some(Missing)
    else if ByteLen(s) < min then Some(TooShort)
    else if ByteLen(s) > max then Some(TooLong)
    else None
  }

  /** A character of the phone pattern's class `[\d\s\+\-\(\)]` (PCRE without the UTF flag). */
  predicate IsPhoneChar(c: char)
  {
    ('0' <= c <= '9')
    || c == ' ' || c == '\t' || c == '\n' || c == '\U{0B}' || c == '\U{0C}' || c == '\r'
    || c == '+' || c == '-' || c == '(' || c == ')'
  }

  predicate AllPhoneChars(s: string)
  {
    forall i :: 0 <= i < |s| ==> IsPhoneChar(s[i])
  }

  /**
   * `preg_match('/^[\d\s\+\-\(\)]{10,20}$/', s)`. Every character of the class
   * is one byte, so counting characters counts bytes. Without the D modifier
   * `$` also matches just before a final newline, which admits a 21st
   * character when it is "\n".
   */
  predicate PhoneMatches(s: string): (b: bool)
    ensures b ==> 10 <= |s| <= 21
  {
    (10 <= |s| <= 20 && AllPhoneChars(s))
    || (|s| == 21 && s[20] == '\n' && AllPhoneChars(s[..20]))
  }

  /** The keys of the error map. */
  datatype Field = Name | Email | Phone | Subject | Body | Spam {
    /** The key as it appears in `$this->errors` and in the JSON payload. */
    function Key(): string
    {
      match this
      case Name => "name"
      case Email => "email"
      case Phone => "phone"
      case Subject => "subject"
      case Body => "message"
      case Spam => "spam"
    }
  }

  /** The six keys are distinct, so the JSON error object keeps one entry per field. */
  lemma KeysDistinct(a: Field, b: Field)
    requires a.Key() == b.Key()
    ensures a == b
  {
  }

  /** The email rule: missing, or rejected by `filter_var(..., FILTER_VALIDATE_EMAIL)`. */
  function EmailProblem(email: string, isEmail: string -> bool): (r: Option<Problem>)
    ensures r == None <==> !IsEmpty(email) && isEmail(email)
    ensures r == Some(Missing) <==> IsEmpty(email)
    ensures r == Some(Invalid) <==> !IsEmpty(email) && !isEmail(email)
  {
    if IsEmpty(email) then Some(Missing)
    else if !isEmail(email) then Some(Invalid)
    else None
  }

  /** The phone rule: only a non-empty phone is checked against the pattern. */
  function PhoneProblem(phone: string): (r: Option<Problem>)
    ensures r == None <==> IsEmpty(phone) || PhoneMatches(phone)
    ensures r.Some? ==> r.value == Invalid
  {
    if !IsEmpty(phone) && !PhoneMatches(phone) then Some(Invalid) else None
  }

  /** The honeypot rule: any non-empty `website` value is spam. */
  function SpamProblem(website: string): (r: Option<Problem>)
    ensures r == None <==> IsEmpty(website)
    ensures r.Some? ==> r.value == SpamDetected
  {
    if !IsEmpty(website) then Some(SpamDetected) else None
  }

  /** The rule `validate` applies to one entry of the error map. */
  function Rule(f: Submission, website: string, isEmail: string -> bool, key: Field): Option<Problem>
  {
    match key
    case Name => LengthProblem(f.name, 2, 100)
    case Email => EmailProblem(f.email, isEmail)
    case Phone => PhoneProblem(f.phone)
    case Subject => LengthProblem(f.subject, 5, 200)
    case Body => LengthProblem(f.message, 10, MAX_MESSAGE_LENGTH)
    case Spam => SpamProblem(website)
  }

  /** The keys the error map can hold. */
  const FIELDS: set<Field> := {Name, Email, Phone, Subject, Body, Spam}

  /** Every rule that fires, keyed by field: the reference description of `validate`. */
  function Problems(f: Submission, website: string, isEmail: string -> bool): (p: map<Field, Problem>)
    ensures p.Keys <= FIELDS
    ensures forall k :: k in p <==> k in FIELDS && Rule(f, website, isEmail, k).Some?
    ensures forall k :: k in p ==> Some(p[k]) == Rule(f, website, isEmail, k)
  {
    map k | k in FIELDS && Rule(f, website, isEmail, k).Some? :: Rule(f, website, isEmail, k).value
  }

  const NAME_MISSING := "Vui lòng nhập họ tên"
  const NAME_TOO_SHORT := "Họ tên phải có ít nhất 2 ký tự"
  const NAME_TOO_LONG := "Họ tên không được quá 100 ký tự"
  const EMAIL_MISSING := "Vui lòng nhập email"
  const EMAIL_INVALID := "Email không hợp lệ"
  const PHONE_INVALID := "Số điện thoại không hợp lệ"
  const SUBJECT_MISSING := "Vui lòng nhập chủ đề"
  const SUBJECT_TOO_SHORT := "Chủ đề phải có ít nhất 5 ký tự"
  const SUBJECT_TOO_LONG := "Chủ đề không được quá 200 ký tự"
  const MESSAGE_MISSING := "Vui lòng nhập tin nhắn"
  const MESSAGE_TOO_SHORT := "Tin nhắn phải có ít nhất 10 ký tự"
  const MESSAGE_TOO_LONG := "Tin nhắn không được quá 5000 ký tự"
  const SPAM_DETECTED := "Spam detected"

  /** The text `validate` stores for a problem of a field (empty for a pair no rule produces). */
  function Message(key: Field, p: Problem): string
  {
    match (key, p)
    case (Name, Missing) => NAME_MISSING
    case (Name, TooShort) => NAME_TOO_SHORT
    case (Name, TooLong) => NAME_TOO_LONG
    case (Email, Missing) => EMAIL_MISSING
    case (Email, Invalid) => EMAIL_INVALID
    case (Phone, Invalid) => PHONE_INVALID
    case (Subject, Missing) => SUBJECT_MISSING
    case (Subject, TooShort) => SUBJECT_TOO_SHORT
    case (Subject, TooLong) => SUBJECT_TOO_LONG
    case (Body, Missing) => MESSAGE_MISSING
    case (Body, TooShort) => MESSAGE_TOO_SHORT
    case (Body, TooLong) => MESSAGE_TOO_LONG
    case (Spam, SpamDetected) => SPAM_DETECTED
    case _ => ""
  }

  /** The error map as `validate` leaves it in `$this->errors`. */
  function Messages(p: map<Field, Problem>): (m: map<Field, string>)
    ensures m.Keys == p.Keys
  {
    map k | k in p :: Message(k, p[k])
  }

  /** `$errors[key] = <message>` when a rule fires, nothing otherwise. */
  function SetError(errors: map<Field, string>, key: Field, p: Option<Problem>): map<Field, string>
  {
    if p.Some? then errors[key := Message(key, p.value)] else errors
  }

  /** The error map after `validate` has run every rule, in the source's order, on top of `errors`. */
  function Filled(errors: map<Field, string>, f: Submission, website: string, isEmail: string -> bool): (r: map<Field, string>)
    ensures forall k :: k in errors ==> k in r
  {
    var e1 := SetError(errors, Name, LengthProblem(f.name, 2, 100));
    var e2 := SetError(e1, Email, EmailProblem(f.email, isEmail));
    var e3 := SetError(e2, Phone, PhoneProblem(f.phone));
    var e4 := SetError(e3, Subject, LengthProblem(f.subject, 5, 200));
    var e5 := SetError(e4, Body, LengthProblem(f.message, 10, MAX_MESSAGE_LENGTH));
    SetError(e5, Spam, SpamProblem(website))
  }

  /** What the filled map holds under one key: the message of its rule if it fired, else the old entry. */
  lemma FilledAt(errors: map<Field, string>, f: Submission, website: string, isEmail: string -> bool, k: Field)
    ensures var filled := Filled(errors, f, website, isEmail); var p := Rule(f, website, isEmail, k);
      (k in filled <==> (k in errors || p.Some?)) &&
      (k in filled ==> filled[k] == if p.Some? then Message(k, p.value) else errors[k])
  {
    var e1 := SetError(errors, Name, LengthProblem(f.name, 2, 100));
    var e2 := SetError(e1, Email, EmailProblem(f.email, isEmail));
    var e3 := SetError(e2, Phone, PhoneProblem(f.phone));
    var e4 := SetError(e3, Subject, LengthProblem(f.subject, 5, 200));
    var e5 := SetError(e4, Body, LengthProblem(f.message, 10, MAX_MESSAGE_LENGTH));
    SetErrorAt(errors, Name, LengthProblem(f.name, 2, 100), k);
    SetErrorAt(e1, Email, EmailProblem(f.email, isEmail), k);
    SetErrorAt(e2, Phone, PhoneProblem(f.phone), k);
    SetErrorAt(e3, Subject, LengthProblem(f.subject, 5, 200), k);
    SetErrorAt(e4, Body, LengthProblem(f.message, 10, MAX_MESSAGE_LENGTH), k);
    SetErrorAt(e5, Spam, SpamProblem(website), k);
  }

  /** Setting an error under `key` leaves every other key as it was. */
  lemma SetErrorAt(errors: map<Field, string>, key: Field, p: Option<Problem>, k: Field)
    ensures var r := SetError(errors, key, p);
      (k in r <==> k in errors || (k == key && p.Some?)) &&
      (k in r ==> r[k] == if k == key && p.Some? then Message(key, p.value) else errors[k])
  {
  }

  /** Filling the map rule by rule adds exactly the messages of Problems. */
  lemma FillInOrder(errors: map<Field, string>, f: Submission, website: string, isEmail: string -> bool)
    ensures Filled(errors, f, website, isEmail) == errors + Messages(Problems(f, website, isEmail))
  {
    var filled := Filled(errors, f, website, isEmail);
    var expected := errors + Messages(Problems(f, website, isEmail));
    forall k ensures k in filled <==> k in expected {
      FilledAt(errors, f, website, isEmail, k);
    }
    forall k | k in filled ensures filled[k] == expected[k] {
      FilledAt(errors, f, website, isEmail, k);
    }
  }

  /**
   * One `if (empty) ... elseif (strlen < min) ... elseif (strlen > max)`
   * chain of `validate`, recording its message under `key`.
   */
  method CheckLength(e: map<Field, string>, key: Field, value: string, min: nat, max: nat) returns (r: map<Field, string>)
    ensures r == SetError(e, key, LengthProblem(value, min, max))
  {
    r := e;
    if IsEmpty(value) {
      r := r[key := Message(key, Missing)];
    } else if ByteLen(value) < min {
      r := r[key := Message(key, TooShort)];
    } else if ByteLen(value) > max {
      r := r[key := Message(key, TooLong)];
    }
  }

  /** The email branch of `validate`. */
  method CheckEmail(e: map<Field, string>, email: string, isEmail: string -> bool) returns (r: map<Field, string>)
    ensures r == SetError(e, Email, EmailProblem(email, isEmail))
  {
    r := e;
    if IsEmpty(email) {
      r := r[Email := EMAIL_MISSING];
    } else if !isEmail(email) {
      r := r[Email := EMAIL_INVALID];
    }
  }

  /** The phone branch of `validate`. */
  method CheckPhone(e: map<Field, string>, phone: string) returns (r: map<Field, string>)
    ensures r == SetError(e, Phone, PhoneProblem(phone))
  {
    r := e;
    if !IsEmpty(phone) && !PhoneMatches(phone) {
      r := r[Phone := PHONE_INVALID];
    }
  }

  /** The honeypot branch of `validate`. */
  method CheckSpam(e: map<Field, string>, website: string) returns (r: map<Field, string>)
    ensures r == SetError(e, Spam, SpamProblem(website))
  {
    r := e;
    if !IsEmpty(website) {
      r := r[Spam := SPAM_DETECTED];
    }
  }

  lemma UnionWithEmpty<K, V>(m: map<K, V>)
    ensures map[] + m == m
  {
  }

  // ----- Requests and responses -----

  /**
   * An inbound request: its HTTP method (`verb`) and Content-Type, the decoded JSON body
   * (None when `json_decode` does not give an array) and PHP's `$_POST`.
   */
  datatype Request = Request(verb: string, contentType: string, json: Option<map<string, string>>, post: map<string, string>)

  /** `strpos($s, $part) !== false`: `part` occurs somewhere in `s`. */
  predicate Contains(s: string, part: string): (b: bool)
    ensures b ==> |part| <= |s|
  {
    part <= s || (s != [] && Contains(s[1..], part))
  }

  /** `part` occurs in `s` at position `i`. */
  predicate OccursAt(s: string, part: string, i: int)
  {
    0 <= i <= |s| - |part| && s[i..i + |part|] == part
  }

  /** An occurrence in the tail of `s` is an occurrence in `s`, one position later. */
  lemma OccursInTail(s: string, part: string, i: int)
    requires s != [] && 0 <= i
    ensures OccursAt(s[1..], part, i) <==> OccursAt(s, part, i + 1)
  {
    if 0 <= i <= |s| - 1 - |part| {
      assert s[1..][i..i + |part|] == s[i + 1..i + 1 + |part|];
    }
  }

  /** `Contains` is substring search: `part` occurs at some position of `s`. */
  lemma {:induction false} ContainsMeaning(s: string, part: string)
    ensures Contains(s, part) <==> exists i :: OccursAt(s, part, i)
    decreases |s|
  {
    if part <= s {
      assert s[0..|part|] == part;
      assert OccursAt(s, part, 0);
    } else if s != [] {
      ContainsMeaning(s[1..], part);
      if |part| <= |s| {
        assert s[0..|part|] == s[..|part|];
      }
      assert !OccursAt(s, part, 0);
      if exists i :: OccursAt(s[1..], part, i) {
        var i :| OccursAt(s[1..], part, i);
        OccursInTail(s, part, i);
      }
      if exists i :: OccursAt(s, part, i) {
        var i :| OccursAt(s, part, i);
        OccursInTail(s, part, i - 1);
      }
    }
  }

  /** `$data` of `getInput`: the JSON body when the Content-Type mentions JSON, otherwise `$_POST`. */
  function InputData(r: Request): map<string, string>
  {
    if Contains(r.contentType, "application/json") then r.json.GetOr(map[]) else r.post
  }

  /** The Content-Type test at the top of `getInput`. */
  method ReadData(r: Request) returns (data: map<string, string>)
    ensures data == InputData(r)
  {
    if Contains(r.contentType, "application/json") {
      data := r.json.GetOr(map[]);
    } else {
      data := r.post;
    }
  }

  /** `$data[key] ?? ''`. */
  function Lookup(data: map<string, string>, key: string): string
  {
    if key in data then data[key] else ""
  }

  /** The honeypot `$_POST['website'] ?? ''`, read from the form body only. */
  function Honeypot(r: Request): string
  {
    Lookup(r.post, "website")
  }

  /** The fields `getInput` stores. */
  function SanitizedInput(r: Request, stripTags: string -> string): Submission
  {
    var data := InputData(r);
    Submission(Sanitize(Lookup(data, "name"), stripTags), Sanitize(Lookup(data, "email"), stripTags),
               Sanitize(Lookup(data, "phone"), stripTags), Sanitize(Lookup(data, "subject"), stripTags),
               Sanitize(Lookup(data, "message"), stripTags))
  }

  /** The JSON document sent back; `errors` is present only when non-empty. */
  datatype Payload = Payload(success: bool, message: string, errors: Option<map<Field, string>>)

  datatype Response = Response(status: nat, body: Payload)

  /** What one request produced: the response, whether `mail()` was called and whether the log was appended. */
  datatype Reply = Reply(response: Response, mailed: bool, logged: bool)

  /** `sendResponse($success, $message, $statusCode, $errors)`. */
  function SendResponse(success: bool, message: string, status: nat, errors: map<Field, string>): (r: Response)
    ensures r.status == status && r.body.success == success && r.body.message == message
    ensures r.body.errors.Some? <==> errors != map[]
    ensures r.body.errors.Some? ==> r.body.errors.value == errors
  {
    Response(status, Payload(success, message, if errors == map[] then None else Some(errors)))
  }

  const METHOD_NOT_ALLOWED_TEXT := "Invalid request method"
  const VALIDATION_FAILED_TEXT := "Validation failed"
  const SENT_TEXT := "Tin nhắn đã được gửi thành công!"
  const MAIL_FAILED_TEXT := "Có lỗi xảy ra khi gửi email. Vui lòng thử lại sau."
  const RATE_LIMITED_TEXT := "Bạn đã gửi quá nhiều tin nhắn. Vui lòng thử lại sau."

  /** The reference description of `process()` for a request the rate limiter let through. */
  function Outcome(r: Request, stripTags: string -> string, isEmail: string -> bool, mailSent: bool): (out: Reply)
    ensures out.response.status == 405 <==> r.verb != "POST"
    ensures out.logged ==> out.mailed && mailSent
  {
    Answer(r.verb, Problems(SanitizedInput(r, stripTags), Honeypot(r), isEmail), mailSent)
  }

  /** What `process()` answers given the HTTP method and the problems `validate` found. */
  function Answer(verb: string, p: map<Field, Problem>, mailSent: bool): (out: Reply)
    ensures out.response.status == 405 <==> verb != "POST"
    ensures out.response.status == 400 <==> verb == "POST" && p != map[]
    ensures out.response.status == 200 <==> verb == "POST" && p == map[] && mailSent
    ensures out.response.status == 500 <==> verb == "POST" && p == map[] && !mailSent
    ensures out.response.status in {200, 400, 405, 500}
    ensures out.mailed <==> out.response.status in {200, 500}
    ensures out.logged <==> out.response.status == 200
    ensures out.response.body.success <==> out.response.status == 200
    ensures out.response.body.errors.Some? <==> out.response.status == 400
    ensures out.response.body.errors.Some? ==> out.response.body.errors.value == Messages(p)
  {
    if verb != "POST" then Reply(SendResponse(false, METHOD_NOT_ALLOWED_TEXT, 405, map[]), false, false)
    else AfterValidation(Messages(p), mailSent)
  }

  /** The rest of `process()` once `validate` has produced `errors`. */
  function AfterValidation(errors: map<Field, string>, mailSent: bool): Reply
  {
    if errors != map[] then Reply(SendResponse(false, VALIDATION_FAILED_TEXT, 400, errors), false, false)
    else if mailSent then Reply(SendResponse(true, SENT_TEXT, 200, map[]), true, true)
    else Reply(SendResponse(false, MAIL_FAILED_TEXT, 500, map[]), true, false)
  }

  /** The reply to a request the rate limiter refused: no status is set, so PHP sends 200. */
  function RateLimitedReply(): (r: Reply)
    ensures r.response.status == 200 && !r.response.body.success && r.response.body.errors.None?
    ensures !r.mailed && !r.logged
  {
    Reply(Response(200, Payload(false, RATE_LIMITED_TEXT, None)), false, false)
  }

  // ----- The handler object -----

  /** `ContactFormHandler`: the sanitized fields and the error map filled by `validate`. */
  class ContactFormHandler {
    var name: string
    var email: string
    var phone: string
    var subject: string
    var message: string
    var errors: map<Field, string>

    /** The five sanitized fields. */
    function Fields(): Submission
      reads this`name, this`email, this`phone, this`subject, this`message
    {
      Submission(name, email, phone, subject, message)
    }

    /** `new ContactFormHandler()`: no fields read yet, no errors. */
    constructor ()
      ensures Fields() == Submission("", "", "", "", "") && errors == map[]
    {
      name, email, phone, subject, message := "", "", "", "", "";
      errors := map[];
    }

    /** `getInput()`: picks the body by Content-Type and sanitizes the five fields. */
    method GetInput(r: Request, stripTags: string -> string)
      modifies this
      ensures Fields() == SanitizedInput(r, stripTags)
      ensures errors == old(errors)
    {
      var data := ReadData(r);
      name, email, phone, subject, message :=
        Sanitize(Lookup(data, "name"), stripTags), Sanitize(Lookup(data, "email"), stripTags),
        Sanitize(Lookup(data, "phone"), stripTags), Sanitize(Lookup(data, "subject"), stripTags),
        Sanitize(Lookup(data, "message"), stripTags);
    }

    /**
     * `validate()`: fills the error map field by field and reports whether it
     * is empty. `website` is the honeypot value.
     */
    method Validate(website: string, isEmail: string -> bool) returns (ok: bool)
      modifies this`errors
      ensures errors == old(errors) + Messages(Problems(Fields(), website, isEmail))
      ensures ok <==> errors == map[]
    {
      var e := errors;
      e := CheckLength(e, Name, name, 2, 100);
      e := CheckEmail(e, email, isEmail);
      e := CheckPhone(e, phone);
      e := CheckLength(e, Subject, subject, 5, 200);
      e := CheckLength(e, Body, message, 10, MAX_MESSAGE_LENGTH);
      e := CheckSpam(e, website);
      FillInOrder(errors, Fields(), website, isEmail);
      errors := e;
      ok := errors == map[];
    }

    /**
     * `process()` on a fresh handler, for a request the rate limiter let
     * through: method check, input, validation, then mail and log.
     */
    method Process(r: Request, stripTags: string -> string, isEmail: string -> bool, mailSent: bool) returns (reply: Reply)
      requires errors == map[]
      modifies this
      ensures reply == Outcome(r, stripTags, isEmail, mailSent)
    {
      if r.verb != "POST" {
        reply := Reply(SendResponse(false, METHOD_NOT_ALLOWED_TEXT, 405, map[]), false, false);
        return;
      }
      GetInput(r, stripTags);
      var ok := Validate(Honeypot(r), isEmail);
      UnionWithEmpty(Messages(Problems(Fields(), Honeypot(r), isEmail)));
      reply := Respond(ok, mailSent);
    }

    /** The tail of `process()`: a 400 with the errors, or mail, log and 200, or 500. */
    method Respond(ok: bool, mailSent: bool) returns (reply: Reply)
      requires ok <==> errors == map[]
      ensures reply == AfterValidation(errors, mailSent)
    {
      if !ok {
        reply := Reply(SendResponse(false, VALIDATION_FAILED_TEXT, 400, errors), false, false);
      } else if mailSent {
        reply := Reply(SendResponse(true, SENT_TEXT, 200, map[]), true, true);
      } else {
        reply := Reply(SendResponse(false, MAIL_FAILED_TEXT, 500, map[]), true, false);
      }
    }
  }

  /**
   * The script's top level: `checkRateLimit()` runs first, for every request
   * whatever its method, and only a request it lets through reaches `process()`.
   */
  method HandleRequest(limiter: RateLimit.RateLimiter, ip: string, now: int, r: Request,
                       stripTags: string -> string, isEmail: string -> bool, mailSent: bool) returns (reply: Reply)
    modifies limiter
    ensures (RateLimit.Denied, limiter.files) == RateLimit.Step(old(limiter.files), ip, now) ==> reply == RateLimitedReply()
    ensures (RateLimit.Allowed, limiter.files) == RateLimit.Step(old(limiter.files), ip, now) ==> reply == Outcome(r, stripTags, isEmail, mailSent)
    ensures limiter.files == RateLimit.Step(old(limiter.files), ip, now).1
  {
    var d := limiter.CheckRateLimit(ip, now);
    if d == RateLimit.Denied {
      reply := RateLimitedReply();
      return;
    }
    var handler := new ContactFormHandler();
    reply := handler.Process(r, stripTags, isEmail, mailSent);
  }

  // ----- Properties of the endpoint -----

  /** The fields every submission must fill in. */
  const REQUIRED: set<Field> := {Name, Email, Subject, Body}

  /** The value `validate` checks under a required key. */
  function RequiredValue(f: Submission, k: Field): string
    requires k in REQUIRED
  {
    match k
    case Name => f.name
    case Email => f.email
    case Subject => f.subject
    case _ => f.message
  }

  /** Every message `validate` stores is one of its texts, never the empty fallback. */
  lemma MessagesNonEmpty(f: Submission, website: string, isEmail: string -> bool)
    ensures var m := Messages(Problems(f, website, isEmail));
      forall k :: k in m ==> m[k] != ""
  {
    var p := Problems(f, website, isEmail);
    forall k | k in p
      ensures Message(k, p[k]) != ""
    {
      assert Some(p[k]) == Rule(f, website, isEmail, k);
    }
  }

  /** A required field left empty (or "0") is reported under its own key, and the request fails with 400. */
  lemma MissingFieldRejected(f: Submission, website: string, isEmail: string -> bool, mailSent: bool, k: Field)
    requires k in REQUIRED && IsEmpty(RequiredValue(f, k))
    ensures var out := Answer("POST", Problems(f, website, isEmail), mailSent);
      out.response.status == 400 && !out.mailed && out.response.body.errors.Some? &&
      k in out.response.body.errors.value && out.response.body.errors.value[k] == Message(k, Missing)
  {
    assert Rule(f, website, isEmail, k) == Some(Missing);
    assert k in Problems(f, website, isEmail);
  }

  /** A message over the maximum byte length fails with the length-specific text. */
  lemma LongMessageRejected(f: Submission, website: string, isEmail: string -> bool, mailSent: bool)
    requires ByteLen(f.message) > MAX_MESSAGE_LENGTH
    ensures var out := Answer("POST", Problems(f, website, isEmail), mailSent);
      out.response.status == 400 && !out.mailed && out.response.body.errors.Some? &&
      Body in out.response.body.errors.value && out.response.body.errors.value[Body] == MESSAGE_TOO_LONG
  {
    assert Rule(f, website, isEmail, Body) == Some(TooLong);
    assert Body in Problems(f, website, isEmail);
  }

  /** A filled honeypot rejects the request whatever the other fields hold. */
  lemma HoneypotRejects(f: Submission, website: string, isEmail: string -> bool, mailSent: bool)
    requires !IsEmpty(website)
    ensures var out := Answer("POST", Problems(f, website, isEmail), mailSent);
      out.response.status == 400 && !out.mailed && !out.logged && out.response.body.errors.Some? &&
      Spam in out.response.body.errors.value && out.response.body.errors.value[Spam] == SPAM_DETECTED
  {
    assert Rule(f, website, isEmail, Spam) == Some(SpamDetected);
    assert Spam in Problems(f, website, isEmail);
  }

  /** No rule fires exactly when the problem map is empty. */
  lemma NoProblemsIffAllRulesPass(f: Submission, website: string, isEmail: string -> bool)
    ensures Problems(f, website, isEmail) == map[] <==> forall k :: Rule(f, website, isEmail, k).None?
  {
    var p := Problems(f, website, isEmail);
    if p != map[] {
      var k :| k in p;
      assert Rule(f, website, isEmail, k).Some?;
    }
    if exists k :: Rule(f, website, isEmail, k).Some? {
      var k :| Rule(f, website, isEmail, k).Some?;
      assert k in FIELDS;
      assert k in p;
    }
  }

  /** Without a final newline, the phone pattern accepts exactly 10 to 20 pattern characters. */
  lemma PhoneWithoutFinalNewline(s: string)
    requires s == [] || s[|s| - 1] != '\n'
    ensures PhoneMatches(s) <==> 10 <= |s| <= 20 && AllPhoneChars(s)
  {
  }

  /**
   * The pattern's `$` lets a 21st character through when it is a newline.
   * `trim` removes a final newline, but `strip_tags` runs after it and can
   * expose one again (a tag after the newline), so twenty pattern characters
   * and a newline reach the pattern and pass.
   */
  lemma PhoneNewlineAccepted(digits: string, raw: string, stripTags: string -> string)
    requires |digits| == 20 && AllPhoneChars(digits)
    requires stripTags(Trim(raw)) == digits + "\n"
    ensures var phone := Sanitize(raw, stripTags);
      |phone| == 21 && phone[20] == '\n' && PhoneProblem(phone) == None
  {
    var t := digits + "\n";
    assert forall i :: 0 <= i < |t| ==> IsPhoneChar(t[i]);
    EscapeFixedPoint(t);
    assert t[..20] == digits;
  }

  /** Text that trimming, `strip_tags` and escaping all leave alone: ASCII, no special characters, no trim characters at the ends. */
  predicate PlainText(s: string)
  {
    (s == [] || (!IsTrimSpace(s[0]) && !IsTrimSpace(s[|s| - 1])))
    && forall i :: 0 <= i < |s| ==> !IsSpecial(s[i]) && (s[i] as int) < 0x80
  }

  /** Plain text comes out of the sanitizer unchanged, one byte per character. */
  lemma PlainSanitized(s: string, stripTags: string -> string)
    requires PlainText(s) && stripTags(s) == s
    ensures Sanitize(s, stripTags) == s && ByteLen(s) == |s|
  {
    TrimUntouched(s);
    EscapeFixedPoint(s);
    AsciiByteLen(s);
  }

  /**
   * A JSON request carrying the given fields. PHP fills `$_POST` only for
   * form-encoded bodies, so the form body of a JSON request is empty.
   */
  function JsonRequest(fields: map<string, string>): Request
  {
    Request("POST", "application/json", Some(fields), map[])
  }

  /** The fields of a JSON request whose values are plain text are stored as sent; the honeypot is empty. */
  lemma PlainJsonInput(fields: map<string, string>, stripTags: string -> string)
    requires forall k :: k in fields ==> PlainText(fields[k]) && stripTags(fields[k]) == fields[k]
    requires stripTags("") == ""
    ensures SanitizedInput(JsonRequest(fields), stripTags) ==
      Submission(Lookup(fields, "name"), Lookup(fields, "email"), Lookup(fields, "phone"),
                 Lookup(fields, "subject"), Lookup(fields, "message"))
    ensures Honeypot(JsonRequest(fields)) == ""
  {
    var r := JsonRequest(fields);
    assert Contains(r.contentType, "application/json");
    assert InputData(r) == fields;
    assert PlainText("");
    PlainSanitized("", stripTags);
    forall key | key in fields
      ensures Sanitize(fields[key], stripTags) == fields[key]
    {
      PlainSanitized(fields[key], stripTags);
    }
  }

  /**
   * The honeypot is read from `$_POST` only. A JSON request leaves `$_POST`
   * empty (see JsonRequest), so its honeypot is "" and the spam rule never
   * fires, whatever the JSON body holds.
   */
  lemma JsonNeverSpam(fields: map<string, string>, stripTags: string -> string, isEmail: string -> bool)
    ensures Spam !in Problems(SanitizedInput(JsonRequest(fields), stripTags), Honeypot(JsonRequest(fields)), isEmail)
  {
    assert Honeypot(JsonRequest(fields)) == "";
  }
}
