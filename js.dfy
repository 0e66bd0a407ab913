/** The pieces of JavaScript semantics the three handlers rely on: the values a
    decoded JSON request body can hold, truthiness, object destructuring, the
    messages of the TypeErrors the handlers can throw, and the JSON tree that
    `JSON.stringify` writes out as a response body. */
module Js {
  import opened Wrappers

  /** A property value of the decoded request body. `Composite` stands for a
      nested object or array, which the handlers never look inside. */
  datatype Value = Undefined | Null | Bool(b: bool) | Num(x: real) | Str(s: string) | Composite

  /** JavaScript truthiness. JSON cannot carry NaN, so every number but 0 is
      truthy, and the falsy values are exactly the five below. */
  predicate Truthy(v: Value)
    ensures !Truthy(v) <==> v in {Undefined, Null, Bool(false), Num(0.0), Str("")}
  {
    match v
    case Undefined => false
    case Null => false
    case Bool(b) => b
    case Num(x) => x != 0.0
    case Str(s) => s != ""
    case Composite => true
  }

  /** What `JSON.parse(event.body || '{}')` produced: a SyntaxError with its
      message, `null`, some other non-object value (a number, string, boolean
      or array), or an object. A missing or empty body parses as `{}`. */
  datatype Body = Unparsable(message: string) | NullBody | NonObject | Object(fields: map<string, Value>)

  /** `body.key`, where a missing key reads as `undefined`. */
  function Prop(fields: map<string, Value>, key: string): Value
  {
    if key in fields then fields[key] else Undefined
  }

  /** The message V8 gives when a property is read from `null` or `undefined`. */
  function CannotRead(what: string, key: string): string
  {
    "Cannot read properties of " + what + " (reading '" + key + "')"
  }

  /** `const { offer_id, ... } = JSON.parse(...)`: parsing may throw, and
      destructuring `null` throws; any other non-object yields only undefined
      properties. */
  function Destructure(body: Body): (r: Result<map<string, Value>, string>)
    ensures r.Success? <==> body.NonObject? || body.Object?
    ensures body.Unparsable? ==> r == Failure(body.message)
    ensures r.Success? ==> forall key :: Prop(r.value, key) == (if body.Object? then Prop(body.fields, key) else Undefined)
  {
    match body
    case Unparsable(message) => Failure(message)
    case NullBody => Failure("Cannot destructure property 'offer_id' of 'body' as it is null.")
    case NonObject => Success(map[])
    case Object(fields) => Success(fields)
  }

  /** A JSON document as `JSON.stringify` writes it; object members keep
      their insertion order. */
  datatype Json = JNull | JBool(b: bool) | JNum(x: real) | JStr(s: string) | JArr(items: seq<Json>) | JObj(members: seq<Member>)

  datatype Member = Member(key: string, value: Json)

  /** Every object key that occurs anywhere in a JSON document. */
  function Keys(j: Json): set<string>
  {
    match j
    case JArr(items) => set i, k | 0 <= i < |items| && k in Keys(items[i]) :: k
    case JObj(ms) =>
      (set i | 0 <= i < |ms| :: ms[i].key) + (set i, k | 0 <= i < |ms| && k in Keys(ms[i].value) :: k)
    case _ => {}
  }

  /** The value of the first member named `key`, if `j` is an object that has one. */
  function Lookup(j: Json, key: string): Option<Json>
  {
    if j.JObj? then LookupMember(j.members, key) else None
  }

  function LookupMember(ms: seq<Member>, key: string): Option<Json>
  {
    if ms == [] then None
    else if ms[0].key == key then Some(ms[0].value)
    else LookupMember(ms[1..], key)
  }

  /** A property `key: value` of an object literal whose value may be
      `undefined`: `JSON.stringify` leaves such a property out. */
  function Optional(key: string, value: Option<string>): seq<Member>
  {
    if value.Some? then [Member(key, JStr(value.value))] else []
  }

  /** Looking a key up in two member lists laid end to end finds it in the
      first one if it is there, and in the second one otherwise. */
  lemma {:induction false} LookupConcat(a: seq<Member>, b: seq<Member>, key: string)
    ensures LookupMember(a + b, key) == if LookupMember(a, key).Some? then LookupMember(a, key) else LookupMember(b, key)
  {
    if a == [] {
      assert a + b == b;
    } else {
      assert (a + b)[0] == a[0];
      assert (a + b)[1..] == a[1..] + b;
      LookupConcat(a[1..], b, key);
    }
  }

  /** The keys of an object with two member lists laid end to end. */
  lemma KeysConcat(a: seq<Member>, b: seq<Member>)
    ensures Keys(JObj(a + b)) == Keys(JObj(a)) + Keys(JObj(b))
  {
    var ab := a + b;
    forall k | k in Keys(JObj(ab)) ensures k in Keys(JObj(a)) + Keys(JObj(b)) {
      var i :| 0 <= i < |ab| && (k == ab[i].key || k in Keys(ab[i].value));
      if i >= |a| {
        assert ab[i] == b[i - |a|];
      }
    }
    forall k | k in Keys(JObj(a)) ensures k in Keys(JObj(ab)) {
      var i :| 0 <= i < |a| && (k == a[i].key || k in Keys(a[i].value));
      assert ab[i] == a[i];
    }
    forall k | k in Keys(JObj(b)) ensures k in Keys(JObj(ab)) {
      var i :| 0 <= i < |b| && (k == b[i].key || k in Keys(b[i].value));
      assert ab[|a| + i] == b[i];
    }
  }

  /** A property that may be undefined contributes its key exactly when it
      is defined, with the string value it holds. */
  lemma OptionalMember(key: string, value: Option<string>, k: string)
    ensures Keys(JObj(Optional(key, value))) == if value.Some? then {key} else {}
    ensures LookupMember(Optional(key, value), k) == if value.Some? && k == key then Some(JStr(value.value)) else None
  {
    if value.Some? {
      var ms := Optional(key, value);
      assert ms[1..] == [];
      assert Keys(ms[0].value) == {};
    }
  }
}
