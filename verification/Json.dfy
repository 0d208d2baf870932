/** Abstract JSON and the strict field readers of src/jwt_utils.cpp. */
module Json {
  import opened Results

  datatype Json =
    | JNull
    | JBool(b: bool)
    | JInt(n: int)
    | JFloat(text: string)
    | JStr(s: string)
    | JArr(items: seq<Json>)
    | JObj(members: Obj)

  type Obj = map<string, Json>

  type int64 = x: int | -0x8000_0000_0000_0000 <= x < 0x8000_0000_0000_0000
  type int32 = x: int | -0x8000_0000 <= x < 0x8000_0000
  type uint32 = x: int | 0 <= x < 0x1_0000_0000
  type uint8 = x: int | 0 <= x < 256

  function Get(o: Obj, k: string): Option<Json> {
    if k in o then Some(o[k]) else None
  }

  // ---------------- writing ----------------

  /** The object with the members that have a value; a member without one is left out. */
  function Build(members: set<string>, value: string -> Option<Json>): (o: Obj)
    ensures forall k :: Get(o, k) == if k in members then value(k) else None
  {
    map k | k in members && value(k).Some? :: value(k).value
  }

  /** A carried object with the managed members replaced or erased. */
  function Overwrite(raw: Obj, members: set<string>, value: string -> Option<Json>): (o: Obj)
    ensures forall k :: Get(o, k) == if k in members then value(k) else Get(raw, k)
  {
    map k | k in raw.Keys + members && (if k in members then value(k).Some? else k in raw) ::
      if k in members then value(k).value else raw[k]
  }

  /** A member assigned, or erased when there is no value to assign. */
  function Put(o: Obj, k: string, v: Option<Json>): Obj {
    if v.Some? then o[k := v.value] else o - {k}
  }

  lemma PutFirst(raw: Obj, value: string -> Option<Json>, k: string)
    ensures Put(raw, k, value(k)) == Overwrite(raw, {k}, value)
  {
    SameMembers(Put(raw, k, value(k)), Overwrite(raw, {k}, value));
  }

  lemma PutNext(raw: Obj, members: set<string>, value: string -> Option<Json>, k: string)
    ensures Put(Overwrite(raw, members, value), k, value(k)) == Overwrite(raw, members + {k}, value)
  {
    SameMembers(Put(Overwrite(raw, members, value), k, value(k)), Overwrite(raw, members + {k}, value));
  }

  lemma OverwriteTwice(raw: Obj, a: set<string>, b: set<string>, value: string -> Option<Json>)
    ensures Overwrite(Overwrite(raw, a, value), b, value) == Overwrite(raw, a + b, value)
  {
    SameMembers(Overwrite(Overwrite(raw, a, value), b, value), Overwrite(raw, a + b, value));
  }

  lemma OverwriteNothing(members: set<string>, value: string -> Option<Json>)
    ensures Overwrite(map[], members, value) == Build(members, value)
  {
    SameMembers(Overwrite(map[], members, value), Build(members, value));
  }

  lemma SameMembers(a: Obj, b: Obj)
    requires forall k :: Get(a, k) == Get(b, k)
    ensures a == b
  {
    assert forall k :: k in a <==> Get(a, k).Some?;
    assert forall k :: k in b <==> Get(b, k).Some?;
  }

  function OmitZero(n: int): Option<Json> {
    if n != 0 then Some(JInt(n)) else None
  }

  function OmitFalse(b: bool): Option<Json> {
    if b then Some(JBool(true)) else None
  }

  function OmitEmpty(s: string): Option<Json> {
    if s != "" then Some(JStr(s)) else None
  }

  function Strings(ss: seq<string>): seq<Json> {
    seq(|ss|, i requires 0 <= i < |ss| => JStr(ss[i]))
  }

  function OmitNoStrings(ss: seq<string>): Option<Json> {
    if ss != [] then Some(JArr(Strings(ss))) else None
  }

  // ---------------- reading ----------------

  /** A limit of 0 is left out, and reads as the value that stands for absent. */
  function Reread(n: int64, absent: int64): int64 {
    if n == 0 then absent else n
  }

  /** `intValue`. */
  function IntValue(v: Json): Result<int64> {
    match v
    case JInt(n) =>
      if -0x8000_0000_0000_0000 <= n < 0x8000_0000_0000_0000 then Ok(n) else Err(Malformed)
    case _ => Err(Malformed)
  }

  /** `intField`. */
  function IntField(o: Obj, k: string, default: int64): Result<int64> {
    match Get(o, k)
    case None => Ok(default)
    case Some(JNull) => Ok(default)
    case Some(v) => IntValue(v)
  }

  /** `uintField`. */
  function UintField(o: Obj, k: string, default: nat, max: nat): Result<nat> {
    match Get(o, k)
    case None => Ok(default)
    case Some(JNull) => Ok(default)
    case Some(JInt(n)) => if 0 <= n <= max then Ok(n) else Err(Malformed)
    case Some(_) => Err(Malformed)
  }

  /** `arrayField`. */
  function ArrayField(o: Obj, k: string): Result<Option<seq<Json>>> {
    match Get(o, k)
    case None => Ok(None)
    case Some(JNull) => Ok(None)
    case Some(JArr(items)) => Ok(Some(items))
    case Some(_) => Err(Malformed)
  }

  /** `objectField`. */
  function ObjectField(o: Obj, k: string): Result<Option<Obj>> {
    match Get(o, k)
    case None => Ok(None)
    case Some(JNull) => Ok(None)
    case Some(JObj(members)) => Ok(Some(members))
    case Some(_) => Err(Malformed)
  }

  /** `j.value(k, "")`: here null is a type error, and every type error is a malformed token. */
  function StringValue(o: Obj, k: string): Result<string> {
    match Get(o, k)
    case None => Ok("")
    case Some(JStr(s)) => Ok(s)
    case Some(_) => Err(Malformed)
  }

  /** `j.value(k, false)`. */
  function BoolValue(o: Obj, k: string): Result<bool> {
    match Get(o, k)
    case None => Ok(false)
    case Some(JBool(b)) => Ok(b)
    case Some(_) => Err(Malformed)
  }

  function AsString(v: Json): Result<string> {
    if v.JStr? then Ok(v.s) else Err(Malformed)
  }

  function AsObject(v: Json): Result<Obj> {
    if v.JObj? then Ok(v.members) else Err(Malformed)
  }

  /** The type test of a decoder: the message of a mismatch quotes the type, so one that is not a
      string is a malformed token. */
  function CheckType(o: Obj, expected: string): Result<bool> {
    match Get(o, "type")
    case None => Err(InvalidClaims)
    case Some(JStr(t)) => if t == expected then Ok(true) else Err(InvalidClaims)
    case Some(_) => Err(Malformed)
  }

  /** Reads every item; the first failure is the outcome. */
  function ReadAll<T>(read: Json -> Result<T>, items: seq<Json>): Result<seq<T>> {
    if items == [] then Ok([])
    else
      var first :- read(items[0]);
      var rest :- ReadAll(read, items[1..]);
      Ok([first] + rest)
  }

  /** `if (const auto* a = arrayField(j, k)) out = a->get<std::vector<std::string>>();` */
  function StringsField(o: Obj, k: string): Result<seq<string>> {
    var items :- ArrayField(o, k);
    match items
    case None => Ok([])
    case Some(a) => ReadAll(AsString, a)
  }

  /** Reads the value of every member. */
  function ReadMembers<T>(read: Json -> Result<T>, o: Obj): Result<map<string, T>> {
    if forall k :: k in o ==> read(o[k]).Ok? then Ok(map k | k in o :: read(o[k]).value)
    else Err(Malformed)
  }

  lemma {:induction false} ReadAllItems<T>(read: Json -> Result<T>, items: seq<Json>, values: seq<T>)
    requires |items| == |values|
    requires forall i :: 0 <= i < |items| ==> read(items[i]) == Ok(values[i])
    ensures ReadAll(read, items) == Ok(values)
  {
    if items != [] {
      assert read(items[0]) == Ok(values[0]);
      ReadAllItems(read, items[1..], values[1..]);
      assert values == [values[0]] + values[1..];
    }
  }

  lemma ReadStrings(ss: seq<string>)
    ensures ReadAll(AsString, Strings(ss)) == Ok(ss)
  {
    ReadAllItems(AsString, Strings(ss), ss);
  }

  /** A string list that is left out when empty reads back. */
  lemma StringsFieldReads(o: Obj, k: string, ss: seq<string>)
    requires Get(o, k) == OmitNoStrings(ss)
    ensures StringsField(o, k) == Ok(ss)
  {
    ReadStrings(ss);
  }

  lemma IntReads(o: Obj, k: string, n: int64, absent: int64)
    requires Get(o, k) == OmitZero(n)
    ensures IntField(o, k, absent) == Ok(Reread(n, absent))
  {
  }

  lemma BoolReads(o: Obj, k: string, b: bool)
    requires Get(o, k) == OmitFalse(b)
    ensures BoolValue(o, k) == Ok(b)
  {
  }

  lemma StringReads(o: Obj, k: string, s: string)
    requires Get(o, k) == OmitEmpty(s)
    ensures StringValue(o, k) == Ok(s)
  {
  }

  lemma ReadMembersOf<T>(read: Json -> Result<T>, o: Obj, m: map<string, T>)
    requires o.Keys == m.Keys
    requires forall k :: k in o ==> read(o[k]) == Ok(m[k])
    ensures ReadMembers(read, o) == Ok(m)
  {
    assert forall k :: k in o ==> read(o[k]).Ok?;
    assert ReadMembers(read, o).value == m;
  }

  /** One unreadable item makes the list unreadable. */
  lemma {:induction false} ReadAllFails<T>(read: Json -> Result<T>, items: seq<Json>, bad: nat)
    requires bad < |items| && read(items[bad]).Err?
    requires forall i :: 0 <= i < |items| ==> read(items[i]).Ok? || read(items[i]) == Err(Malformed)
    ensures ReadAll(read, items) == Err(Malformed)
  {
    if read(items[0]).Ok? {
      ReadAllFails(read, items[1..], bad - 1);
    }
  }

  /** What was read of a list is what was read of each item. */
  lemma {:induction false} ReadAllRead<T>(read: Json -> Result<T>, items: seq<Json>, values: seq<T>)
    requires ReadAll(read, items) == Ok(values)
    ensures |values| == |items|
    ensures forall i :: 0 <= i < |items| ==> read(items[i]) == Ok(values[i])
  {
    if items != [] {
      ReadAllRead(read, items[1..], values[1..]);
      assert forall i :: 1 <= i < |items| ==> items[i] == items[1..][i - 1] && values[i] == values[1..][i - 1];
    }
  }

  // ---------------- what the readers and writers do, exactly ----------------

  /** Zero, false, the empty string and the empty list are left out; nothing else is. */
  lemma OmissionsExactly(n: int, b: bool, s: string, ss: seq<string>)
    ensures OmitZero(n) == if n == 0 then None else Some(JInt(n))
    ensures OmitFalse(b) == if b == false then None else Some(JBool(b))
    ensures OmitEmpty(s) == if |s| == 0 then None else Some(JStr(s))
    ensures |ss| == 0 ==> OmitNoStrings(ss) == None
    ensures |ss| > 0 ==> OmitNoStrings(ss).Some? && IsStrings(OmitNoStrings(ss).value, ss)
  {
  }

  /** An array of these strings. */
  predicate IsStrings(v: Json, ss: seq<string>) {
    v.JArr? && |v.items| == |ss| && forall i :: 0 <= i < |ss| ==> v.items[i] == JStr(ss[i])
  }

  /** A member that is absent or null. */
  predicate Missing(o: Obj, k: string) {
    k !in o || o[k] == JNull
  }

  /** A missing integer reads as its default, an integer of 64 bits as itself, anything else fails. */
  lemma IntFieldExactly(o: Obj, k: string, default: int64, v: int64)
    ensures IntField(o, k, default) == Ok(v) <==> if Missing(o, k) then v == default else o[k] == JInt(v)
    ensures IntField(o, k, default).Err? ==> IntField(o, k, default) == Err(Malformed)
  {
  }

  /** The same for integers from 0 to `max`. */
  lemma UintFieldExactly(o: Obj, k: string, default: nat, max: nat, v: nat)
    ensures UintField(o, k, default, max) == Ok(v) <==>
      if Missing(o, k) then v == default else o[k] == JInt(v) && v <= max
    ensures UintField(o, k, default, max).Err? ==> UintField(o, k, default, max) == Err(Malformed)
  {
  }

  /** An absent string reads as empty; null fails, here and for booleans. */
  lemma StringValueExactly(o: Obj, k: string, s: string)
    ensures StringValue(o, k) == Ok(s) <==> if k in o then o[k] == JStr(s) else s == ""
    ensures StringValue(o, k).Err? ==> StringValue(o, k) == Err(Malformed)
  {
  }

  lemma BoolValueExactly(o: Obj, k: string, b: bool)
    ensures BoolValue(o, k) == Ok(b) <==> if k in o then o[k] == JBool(b) else !b
    ensures BoolValue(o, k).Err? ==> BoolValue(o, k) == Err(Malformed)
  {
  }

  lemma ObjectFieldExactly(o: Obj, k: string, v: Option<Obj>)
    ensures ObjectField(o, k) == Ok(v) <==> if Missing(o, k) then v == None else v.Some? && o[k] == JObj(v.value)
    ensures ObjectField(o, k).Err? ==> ObjectField(o, k) == Err(Malformed)
  {
  }

  /** What is read of every item, in order. */
  lemma ReadAllExactly<T>(read: Json -> Result<T>, items: seq<Json>, values: seq<T>)
    ensures ReadAll(read, items) == Ok(values) <==>
      |values| == |items| && forall i :: 0 <= i < |items| ==> read(items[i]) == Ok(values[i])
  {
    if ReadAll(read, items) == Ok(values) {
      ReadAllRead(read, items, values);
    }
    if |values| == |items| && forall i :: 0 <= i < |items| ==> read(items[i]) == Ok(values[i]) {
      ReadAllItems(read, items, values);
    }
  }

  /** A missing list of strings is empty; every item has to be a string. */
  lemma StringsFieldExactly(o: Obj, k: string, ss: seq<string>)
    ensures StringsField(o, k) == Ok(ss) <==> if Missing(o, k) then ss == [] else IsStrings(o[k], ss)
  {
    if !Missing(o, k) && o[k].JArr? {
      ReadAllExactly(AsString, o[k].items, ss);
    }
  }

  /** The value of every member, under its own name. */
  lemma ReadMembersExactly<T>(read: Json -> Result<T>, o: Obj, m: map<string, T>)
    ensures ReadMembers(read, o) == Ok(m) <==>
      (forall k :: k in m <==> k in o) && forall k :: k in o ==> read(o[k]) == Ok(m[k])
  {
    if (forall k :: k in m <==> k in o) && forall k :: k in o ==> read(o[k]) == Ok(m[k]) {
      assert o.Keys == m.Keys;
      ReadMembersOf(read, o, m);
    }
  }
}
