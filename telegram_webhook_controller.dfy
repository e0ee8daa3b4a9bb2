/** `TelegramWebhookController`: the bot's webhook. A configured secret must
    come back in the request's token header; an update carrying a contact
    verifies the phone of the user linked to the sender's Telegram account.
    The update is the decoded JSON body; the users are those the database
    query searches, in its order; the reply is the message the bot sends (the
    call to the Telegram API is not part of this model). */
module TelegramWebhookController {
  import opened Wrappers
  import opened PhpText
  import opened PhpArray
  import opened User

  /** `$v[$k]` for a string key. A missing key, or a value that is not an
      array, raises: PHP warns (or, on a string, throws) and the framework
      turns the warning into an exception. */
  function Offset(v: Value, k: string): (r: Result<Value>)
    ensures r.Success? <==> v.Arr? && Get(v.entries, StrKey(k)).Some?
    ensures r.Success? ==> r.value == Get(v.entries, StrKey(k)).value
  {
    if v.Arr? && Get(v.entries, StrKey(k)).Some? then Success(Get(v.entries, StrKey(k)).value)
    else Failure("Undefined array key \"" + k + "\"")
  }

  // ---- the secret token ----

  /** The check at the top of `handle`: when the configured secret is truthy,
      the header must hold a truthy token equal to it. */
  predicate TokenAccepted(secret: Option<string>, received: Option<string>) {
    secret.None? || IsFalsy(secret.value) ||
    (received.Some? && !IsFalsy(received.value) && received.value == secret.value)
  }

  /** Without a secret every request passes; with one, only a request bearing
      exactly that secret does. */
  lemma TokenCheck(secret: Option<string>, received: Option<string>)
    ensures secret.Some? && !IsFalsy(secret.value) ==>
      (TokenAccepted(secret, received) <==> received == secret)
    ensures secret.None? || IsFalsy(secret.value) ==> TokenAccepted(secret, received)
  {
  }

  // ---- the phone number ----

  /** A value passed to `string $phone`: scalars are converted, null and
      arrays are refused with a `TypeError`. */
  function PhoneArg(v: Value): (r: Result<string>)
    ensures r.Success? <==> !v.Null? && !v.Arr?
    ensures v.Str? ==> r == Success(v.s)
  {
    if v.Null? || v.Arr? then Failure("TypeError: normalizePhone(): Argument #1 ($phone) must be of type string")
    else StringOf(v)
  }

  /** `normalizePhone`: the trimmed phone, with a `+` put in front when it
      does not start with one. */
  function NormalizePhone(phone: string): (r: string)
    ensures StartsWith(r, "+") && IsTrimmed(r)
    ensures StartsWith(Trim(phone), "+") ==> r == Trim(phone)
    ensures !StartsWith(Trim(phone), "+") ==> r == "+" + Trim(phone)
  {
    var t := Trim(phone);
    if StartsWith(t, "+") then t else "+" + t
  }

  /** Normalising a normalised phone changes nothing. */
  lemma NormalizePhoneIdempotent(phone: string)
    ensures NormalizePhone(NormalizePhone(phone)) == NormalizePhone(phone)
  {
    var r := NormalizePhone(phone);
    TrimOfTrimmed(r);
  }

  // ---- the chat the reply goes to ----

  /** A value passed to `int $chatId`: integers, booleans and strings of an
      optional `-` followed by decimal digits are accepted; anything else is
      refused with a `TypeError`. */
  function ChatIdOf(v: Value): (r: Result<int>)
    ensures v.Int? ==> r == Success(v.n)
    ensures v.Null? || v.Arr? ==> r.Failure?
  {
    match v
    case Int(n) => Success(n)
    case Bool(b) => Success(if b then 1 else 0)
    case Str(s) =>
      if s != [] && AllDigits(s) then Success(DigitsValue(s))
      else if |s| >= 2 && s[0] == '-' && AllDigits(s[1..]) then Success(-(DigitsValue(s[1..]) as int))
      else Failure("TypeError: sendMessage(): Argument #1 ($chatId) must be of type int")
    case _ => Failure("TypeError: sendMessage(): Argument #1 ($chatId) must be of type int")
  }

  // ---- handleContact ----

  /** What `handleContact` reads before it decides: the contact, the id of
      the user the contact belongs to, the sender's id and the chat id. */
  datatype Contact = Contact(contact: Value, userId: Value, fromId: Value, chatId: Value)

  function ReadContact(message: seq<Entry>): (r: Result<Contact>)
    ensures r.Success? <==>
      Offset(Arr(message), "contact").Success? && Offset(Arr(message), "from").Success? &&
      Offset(Arr(message), "chat").Success? && Offset(Offset(Arr(message), "chat").value, "id").Success? &&
      Offset(Offset(Arr(message), "contact").value, "user_id").Success? &&
      Offset(Offset(Arr(message), "from").value, "id").Success?
    ensures r.Success? ==>
      r.value.contact == Offset(Arr(message), "contact").value &&
      r.value.userId == Offset(r.value.contact, "user_id").value &&
      r.value.fromId == Offset(Offset(Arr(message), "from").value, "id").value &&
      r.value.chatId == Offset(Offset(Arr(message), "chat").value, "id").value
  {
    var contact :- Offset(Arr(message), "contact");
    var from :- Offset(Arr(message), "from");
    var chat :- Offset(Arr(message), "chat");
    var chatId :- Offset(chat, "id");
    var userId :- Offset(contact, "user_id");
    var fromId :- Offset(from, "id");
    Success(Contact(contact, userId, fromId, chatId))
  }

  /** `where('telegram_id', $id)` on one user. */
  predicate Linked(u: User, id: Value)
    reads u
  {
    id.Int? && u.telegramId == Some(id.n)
  }

  /** `->first()`: the position of the first user linked to `id`. */
  function FindUser(users: seq<User>, id: Value, from: nat): (r: Option<nat>)
    requires from <= |users|
    reads users
    ensures r.Some? ==> from <= r.value < |users| && Linked(users[r.value], id)
    ensures r.Some? ==> forall j :: from <= j < r.value ==> !Linked(users[j], id)
    ensures r.None? ==> forall j :: from <= j < |users| ==> !Linked(users[j], id)
    decreases |users| - from
  {
    if from == |users| then None
    else if Linked(users[from], id) then Some(from)
    else FindUser(users, id, from + 1)
  }

  /** The branch `handleContact` takes. */
  datatype Outcome = Mismatch | UnknownUser | Verified(index: nat, phone: string)

  /** The phone of the contact, as `normalizePhone` receives it. */
  function ContactPhone(contact: Value): (r: Result<string>)
    ensures r.Success? <==> Offset(contact, "phone_number").Success? && PhoneArg(Offset(contact, "phone_number").value).Success?
  {
    var v :- Offset(contact, "phone_number");
    PhoneArg(v)
  }

  /** A contact that is not the sender's own is refused; so is a sender no
      user is linked to; otherwise the first linked user gets the contact's
      phone, normalised. */
  function Decide(c: Contact, users: seq<User>): (r: Result<Outcome>)
    reads users
    ensures r == Success(Mismatch) <==> c.userId != c.fromId
    ensures r == Success(UnknownUser) <==> c.userId == c.fromId && FindUser(users, c.fromId, 0).None?
    ensures r.Failure? <==> c.userId == c.fromId && FindUser(users, c.fromId, 0).Some? && ContactPhone(c.contact).Failure?
    ensures r.Success? && r.value.Verified? ==>
      c.userId == c.fromId && Some(r.value.index) == FindUser(users, c.fromId, 0) &&
      r.value.phone == NormalizePhone(ContactPhone(c.contact).value)
  {
    if c.userId != c.fromId then Success(Mismatch)
    else
      match FindUser(users, c.fromId, 0)
      case None => Success(UnknownUser)
      case Some(i) =>
        var phone :- ContactPhone(c.contact);
        Success(Verified(i, NormalizePhone(phone)))
  }

  /** A verified phone only ever goes to the user linked to the Telegram
      account that sent its own contact. */
  lemma VerifiedOnlyOwnContact(c: Contact, users: seq<User>)
    requires Decide(c, users).Success? && Decide(c, users).value.Verified?
    ensures var i := Decide(c, users).value.index;
      i < |users| && c.userId == c.fromId && c.fromId.Int? && users[i].telegramId == Some(c.fromId.n)
  {
  }

  const ContactMismatchText: string := "auth.telegram_verification.contact_mismatch"
  const UserNotFoundText: string := "auth.telegram_verification.user_not_found"
  const SuccessText: string := "auth.telegram_verification.success"

  function TextOf(o: Outcome): string {
    match o
    case Mismatch => ContactMismatchText
    case UnknownUser => UserNotFoundText
    case Verified(_, _) => SuccessText
  }

  /** The message the bot sends. */
  datatype Reply = Reply(chatId: int, text: string)

  /** No user changes but the one at `changed`, if any. */
  twostate predicate OthersUnchanged(users: seq<User>, changed: Option<nat>)
    reads users
  {
    forall j :: 0 <= j < |users| && (changed.None? || changed.value >= |users| || users[j] != users[changed.value]) ==>
      unchanged(users[j])
  }

  /** The effect of `handleContact` once it has read the contact `c` and
      taken the branch `o`: on an error no user changes and the call fails;
      on success the linked user's phone is the normalised one and it is
      verified now, and no other user changes. The reply goes to the chat id,
      which must be accepted as an `int`; the user is saved before that is
      checked. */
  twostate predicate Handled(c: Contact, o: Result<Outcome>, users: seq<User>, now: int, new r: Result<Reply>)
    reads users
  {
    (o.Failure? ==> r.Failure? && OthersUnchanged(users, None)) &&
    (o.Success? ==> (r.Success? <==> ChatIdOf(c.chatId).Success?)) &&
    (o.Success? && r.Success? ==> r.value == Reply(ChatIdOf(c.chatId).value, TextOf(o.value))) &&
    (o.Success? && o.value.Verified? ==>
      o.value.index < |users| && users[o.value.index].phone == Some(o.value.phone) &&
      users[o.value.index].phoneVerifiedAt == Some(now) && users[o.value.index].HasVerifiedPhone() &&
      OthersUnchanged(users, Some(o.value.index))) &&
    (o.Success? && !o.value.Verified? ==> OthersUnchanged(users, None))
  }

  /** What `handleContact` does with `message`: a message it cannot read
      fails and changes no user; otherwise the effect of the branch the users
      held at the call decide. */
  twostate predicate ContactHandled(message: seq<Entry>, users: seq<User>, now: int, new r: Result<Reply>)
    reads users
  {
    var c := ReadContact(message);
    (c.Failure? ==> r.Failure? && OthersUnchanged(users, None)) &&
    (c.Success? ==> Handled(c.value, old(Decide(c.value, users)), users, now, r))
  }

  /** `$user->phone = $normalizedPhone; $user->markPhoneAsVerified();` on the
      verified branch; nothing on the others. */
  method Apply(users: seq<User>, o: Outcome, now: int)
    requires o.Verified? ==> o.index < |users|
    modifies users
    ensures o.Verified? ==>
      users[o.index].phone == Some(o.phone) && users[o.index].phoneVerifiedAt == Some(now) &&
      users[o.index].HasVerifiedPhone() && OthersUnchanged(users, Some(o.index))
    ensures !o.Verified? ==> OthersUnchanged(users, None)
  {
    if o.Verified? {
      var user := users[o.index];
      user.phone := Some(o.phone);
      user.MarkPhoneAsVerified(now);
    }
  }

  /** `handleContact`. */
  method HandleContact(message: seq<Entry>, users: seq<User>, now: int) returns (r: Result<Reply>)
    modifies users
    ensures ContactHandled(message, users, now, r)
  {
    var c := ReadContact(message);
    if c.Failure? {
      return Failure(c.error);
    }
    var contact := c.value;
    var o := Decide(contact, users);
    if o.Failure? {
      return Failure(o.error);
    }
    Apply(users, o.value, now);
    var chatId := ChatIdOf(contact.chatId);
    if chatId.Failure? {
      return Failure(chatId.error);
    }
    r := Success(Reply(chatId.value, TextOf(o.value)));
  }

  // ---- handle ----

  /** `isset($update['message']['contact'])`. */
  predicate HasContact(update: seq<Entry>) {
    var m := Get(update, StrKey("message"));
    m.Some? && m.value.Arr? && IsSet(m.value.entries, StrKey("contact"))
  }

  function Message(update: seq<Entry>): seq<Entry>
    requires HasContact(update)
  {
    Get(update, StrKey("message")).value.entries
  }

  /** The answer of `handle`: 403, or `{"ok": true}` with the reply sent, if
      any. */
  datatype Response = Forbidden | Ok(sent: Option<Reply>)

  /** The reply a `handle` answer carries, as `handleContact` returned it. */
  function SentOf(r: Result<Response>): Result<Reply> {
    if r.Failure? then Failure(r.error)
    else if r.value.Ok? && r.value.sent.Some? then Success(r.value.sent.value)
    else Failure("")
  }

  /** `handle` with the configured secret, the token header and the decoded
      update. */
  method Handle(secret: Option<string>, received: Option<string>, update: seq<Entry>, users: seq<User>, now: int)
    returns (r: Result<Response>)
    modifies users
    ensures !TokenAccepted(secret, received) ==> r == Success(Forbidden) && OthersUnchanged(users, None)
    ensures TokenAccepted(secret, received) && !HasContact(update) ==>
      r == Success(Ok(None)) && OthersUnchanged(users, None)
    ensures TokenAccepted(secret, received) && HasContact(update) ==>
      (r.Success? ==> r.value.Ok? && r.value.sent.Some?) &&
      ContactHandled(Message(update), users, now, SentOf(r))
  {
    if !TokenAccepted(secret, received) {
      return Success(Forbidden);
    }
    if !HasContact(update) {
      return Success(Ok(None));
    }
    var sent := HandleContact(Message(update), users, now);
    if sent.Failure? {
      return Failure(sent.error);
    }
    r := Success(Ok(Some(sent.value)));
  }
}
