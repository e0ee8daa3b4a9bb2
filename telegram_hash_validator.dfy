/** `TelegramHashValidator`: the check of the data the Telegram login widget
    sends. The fields other than `hash`, sorted by key, are written one
    `key=value` per line; the line block, signed with the bot's key, must
    equal `hash`. The signature (HMAC-SHA-256 keyed with the SHA-256 of the
    bot token) is the parameter `sign`; the clock is the parameter `now`. */
module TelegramHashValidator {
  import opened Wrappers
  import opened PhpText
  import opened PhpArray
  import opened Sorting

  const HashKey: Key := StrKey("hash")
  const AuthDateKey: Key := StrKey("auth_date")

  /** `config('telegram.auth_timeout', 86400)` when nothing is configured. */
  const DefaultAuthTimeout: int := 86400

  function KeyName(e: Entry): string {
    KeyString(e.key)
  }

  /** `ksort`'s order on the keys: by their string form. */
  function KeyOrder(): (Entry, Entry) -> bool {
    ByStringKey(KeyName)
  }

  /** `ksort($data)`: the same fields, in key order. */
  function KSort(fields: seq<Entry>): (r: seq<Entry>)
    ensures SortedBy(r, KeyOrder()) && multiset(r) == multiset(fields) && |r| == |fields|
  {
    ByStringKeyPreorder(KeyName);
    InsertionSort(fields, KeyOrder())
  }

  /** The fields that are signed: every field but `hash`, in key order. */
  function SignedFields(data: seq<Entry>): (r: seq<Entry>)
    ensures SortedBy(r, KeyOrder()) && multiset(r) == multiset(Unset(data, HashKey))
  {
    KSort(Unset(data, HashKey))
  }

  /** The signed fields are the fields other than `hash`, sorted, and `hash`
      is not among them. */
  lemma SignedFieldsExcludeHash(data: seq<Entry>)
    ensures var fields := SignedFields(data);
      SortedBy(fields, KeyOrder()) &&
      (forall i :: 0 <= i < |fields| ==> fields[i].key != HashKey) &&
      forall e :: e in fields <==> e in Unset(data, HashKey)
  {
    var fields := SignedFields(data);
    var rest := Unset(data, HashKey);
    forall i | 0 <= i < |fields| ensures fields[i].key != HashKey {
      assert fields[i] in multiset(rest);
      assert fields[i] in rest;
    }
    forall e ensures e in fields <==> e in rest {
      assert e in fields <==> e in multiset(fields);
      assert e in rest <==> e in multiset(rest);
    }
  }

  /** `"{$key}={$value}"` for one field. */
  function Line(e: Entry): (r: Result<string>)
    ensures r.Success? <==> !e.value.Arr?
    ensures r.Success? ==> r.value == KeyString(e.key) + "=" + StringOf(e.value).value
  {
    match StringOf(e.value)
    case Success(v) => Success(KeyString(e.key) + "=" + v)
    case Failure(err) => Failure(err)
  }

  /** The `map` over the fields: one line per field, in order; a field
      holding an array cannot be written and aborts. */
  function Lines(fields: seq<Entry>): (r: Result<seq<string>>)
    ensures r.Success? <==> forall i :: 0 <= i < |fields| ==> !fields[i].value.Arr?
    ensures r.Success? ==> |r.value| == |fields|
    ensures r.Success? ==> forall i :: 0 <= i < |fields| ==> r.value[i] == Line(fields[i]).value
  {
    if fields == [] then Success([])
    else
      var first := Line(fields[0]);
      var rest := Lines(fields[1..]);
      assert forall i :: 1 <= i < |fields| ==> fields[i] == fields[1..][i - 1];
      if first.Failure? then Failure(first.error)
      else if rest.Failure? then rest
      else Success([first.value] + rest.value)
  }

  /** No line holds a newline of its own. */
  predicate NoNewlines(lines: seq<string>)
  {
    forall k, i :: 0 <= k < |lines| && 0 <= i < |lines[k]| ==> lines[k][i] != '\n'
  }

  /** The data-check-string: it can be written exactly when no signed field
      holds an array; it is empty without signed fields and otherwise splits
      back, at its newlines, into the lines of the signed fields. */
  function DataCheckString(data: seq<Entry>): (r: Result<string>)
    ensures r.Success? <==> forall i :: 0 <= i < |SignedFields(data)| ==> !SignedFields(data)[i].value.Arr?
    ensures r.Success? && SignedFields(data) == [] ==> r.value == ""
    ensures r.Success? && SignedFields(data) != [] && Lines(SignedFields(data)).Success? &&
            NoNewlines(Lines(SignedFields(data)).value) ==>
              Split(r.value, IsNewline) == Lines(SignedFields(data)).value
  {
    var fields := SignedFields(data);
    match Lines(fields)
    case Success(lines) =>
      if fields != [] && NoNewlines(lines) then
        ImplodeSplit(lines);
        Success(Implode("\n", lines))
      else
        Success(Implode("\n", lines))
    case Failure(err) => Failure(err)
  }

  /** `validate`: false without `hash` or `auth_date`, false when the login is
      older than the timeout, otherwise whether the signature of the
      data-check-string equals `hash`. `hash_equals` refuses a `hash` that is
      not a string, and a field holding an array cannot be written: both
      throw. */
  method Validate(data: seq<Entry>, now: int, authTimeout: int, sign: string -> string) returns (r: Result<bool>)
    ensures !IsSet(data, HashKey) || !IsSet(data, AuthDateKey) ==> r == Success(false)
    ensures IsSet(data, HashKey) && IsSet(data, AuthDateKey) && now - IntOf(Get(data, AuthDateKey).value) > authTimeout ==>
      r == Success(false)
    ensures IsSet(data, HashKey) && IsSet(data, AuthDateKey) && now - IntOf(Get(data, AuthDateKey).value) <= authTimeout ==>
      (r.Success? <==> DataCheckString(data).Success? && Get(data, HashKey).value.Str?) &&
      (r.Success? ==> r.value == (sign(DataCheckString(data).value) == Get(data, HashKey).value.s))
  {
    if !IsSet(data, HashKey) || !IsSet(data, AuthDateKey) {
      return Success(false);
    }
    if now - IntOf(Get(data, AuthDateKey).value) > authTimeout {
      return Success(false);
    }
    var hash := Get(data, HashKey).value;
    var fields := Unset(data, HashKey);
    fields := KSort(fields);
    var check := Lines(fields);
    if check.Failure? {
      return Failure(check.error);
    }
    var computed := sign(Implode("\n", check.value));
    if !hash.Str? {
      return Failure("hash_equals(): Argument #2 ($user_string) must be of type string");
    }
    r := Success(computed == hash.s);
  }

  // ---- reading the data-check-string back ----

  predicate IsNewline(c: char) {
    c == '\n'
  }

  lemma {:induction false} SplitAfterPiece(x: string, rest: string)
    requires forall i :: 0 <= i < |x| ==> !IsNewline(x[i])
    ensures Split(x + "\n" + rest, IsNewline) == [x] + Split(rest, IsNewline)
    decreases |x|
  {
    if x == [] {
      assert x + "\n" + rest == "\n" + rest;
      assert ("\n" + rest)[1..] == rest;
    } else {
      SplitAfterPiece(x[1..], rest);
      assert (x + "\n" + rest)[1..] == x[1..] + "\n" + rest;
      assert [x[0]] + x[1..] == x;
    }
  }

  /** Lines without a newline are recovered by splitting the block at its
      newlines: the data-check-string determines its lines. */
  lemma {:induction false} ImplodeSplit(lines: seq<string>)
    requires lines != []
    requires forall k, i :: 0 <= k < |lines| && 0 <= i < |lines[k]| ==> lines[k][i] != '\n'
    ensures Split(Implode("\n", lines), IsNewline) == lines
    decreases |lines|
  {
    if |lines| == 1 {
      SplitNoSep(lines[0], IsNewline);
    } else {
      ImplodeSplit(lines[1..]);
      SplitAfterPiece(lines[0], Implode("\n", lines[1..]));
      assert lines == [lines[0]] + lines[1..];
    }
  }
}
