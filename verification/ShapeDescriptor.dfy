/**
 The redacted shape of an account response: which approved field names it has, of which type
 classes, and how many other names. One walk writes it, another accepts it back.
 */
module ShapeDescriptor {
  import opened Wrappers

  const MAX_DEPTH := 3
  const MAX_KEYS := 16
  const MAX_BYTES := 4096

  datatype Name =
    | AccountId | AccountIndex | AccountIndexForKeyGeneration | BridgeStarknetAddress | Data | Description | Error | Id | L2Key
    | L2Vault | Pagination | Status

  /** The approved names in the order the encoder sorts them. */
  const NAMES: seq<Name> := [AccountId, AccountIndex, AccountIndexForKeyGeneration, BridgeStarknetAddress, Data, Description, Error, Id,
                             L2Key, L2Vault, Pagination, Status]

  datatype Class = ObjectClass | ArrayClass | StringClass | IntegerClass | NumberClass | BooleanClass | NullClass

  /** A key of a decoded body: an approved name, any other text, or no text at all. */
  datatype BodyKey = Approved(name: Name) | Unapproved(text: string) | NotText

  /** A decoded body, members in their order. Foreign values have no type class. */
  datatype Body = Null | Boolean(b: bool) | Integer(i: int) | Number(n: real) | NotFinite | Text(s: string) | Array(items: Items)
                | Object(members: Members) | Foreign
  datatype Items = NoItems | Item(head: Body, tail: Items)
  datatype Members = NoMembers | Member(key: BodyKey, value: Body, rest: Members)

  /** The keys the two walks tell apart in a descriptor. */
  datatype Key = Type | Fields | UnknownFields | Field(name: Name) | Other(text: string)

  /** A descriptor as written, or as read back from durable evidence: then it may be anything. */
  datatype Evidence = Kind(kind: Class) | Int(i: int) | Dict(entries: map<Key, Evidence>) | Junk

  function Leaf(kind: Class): Evidence {
    Dict(map[Type := Kind(kind)])
  }

  function Shape(known: map<Key, Evidence>, unknown: int): Evidence {
    Dict(map[Type := Kind(ObjectClass), Fields := Dict(known), UnknownFields := Int(unknown)])
  }

  function ClassOf(value: Body): Option<Class> {
    match value
    case Null => Some(NullClass)
    case Boolean(_) => Some(BooleanClass)
    case Integer(_) => Some(IntegerClass)
    case Number(_) => Some(NumberClass)
    case Text(_) => Some(StringClass)
    case Array(_) => Some(ArrayClass)
    case Object(_) => Some(ObjectClass)
    case _ => None
  }

  function Count(members: Members): nat {
    match members case NoMembers => 0 case Member(_, _, rest) => 1 + Count(rest)
  }

  // ----- The writer -----

  datatype Walked = Walked(evidence: Evidence, seen: nat)
  datatype Inside = Inside(known: map<Key, Evidence>, unknown: nat, seen: nat)

  /** Below an unapproved name or inside an array everything is still bounded and checked, and nothing is written. */
  function Walk(value: Body, depth: nat, emit: bool, seen: nat): Result<Walked, string>
    decreases value
  {
    var _ :- Need(depth <= MAX_DEPTH, "SHAPE_DEPTH_EXCEEDED");
    if ClassOf(value).None? then Err("SHAPE_TYPE_INVALID")
    else match value
      case Object(members) =>
        var _ :- Need(seen + Count(members) <= MAX_KEYS, "SHAPE_KEYS_EXCEEDED");
        var inside :- WalkMembers(members, depth, emit, Inside(map[], 0, seen + Count(members)));
        Ok(Walked(if emit then Shape(inside.known, inside.unknown) else Leaf(ObjectClass), inside.seen))
      case Array(items) =>
        var after :- WalkItems(items, depth, seen);
        Ok(Walked(Leaf(ArrayClass), after))
      case _ => Ok(Walked(Leaf(ClassOf(value).value), seen))
  }

  function WalkMembers(members: Members, depth: nat, emit: bool, inside: Inside): Result<Inside, string>
    decreases members
  {
    match members
    case NoMembers => Ok(inside)
    case Member(NotText, _, _) => Err("SHAPE_TYPE_INVALID")
    case Member(Approved(name), value, rest) =>
      var child :- Walk(value, depth + 1, emit, inside.seen);
      var known := if emit then inside.known[Field(name) := child.evidence] else inside.known;
      WalkMembers(rest, depth, emit, Inside(known, inside.unknown, child.seen))
    case Member(Unapproved(_), value, rest) =>
      var child :- Walk(value, depth + 1, false, inside.seen);
      WalkMembers(rest, depth, emit, Inside(inside.known, inside.unknown + 1, child.seen))
  }

  function WalkItems(items: Items, depth: nat, seen: nat): Result<nat, string>
    decreases items
  {
    match items
    case NoItems => Ok(seen)
    case Item(head, tail) =>
      var child :- Walk(head, depth + 1, false, seen);
      WalkItems(tail, depth, child.seen)
  }

  function Describe(body: Body): Result<Evidence, string> {
    var walked :- Walk(body, 0, true, 0);
    var _ :- Need(EncodedLength(walked.evidence) <= MAX_BYTES, "DESCRIPTOR_TOO_LARGE");
    Ok(walked.evidence)
  }

  /** The same walk with the key count as shared state. */
  class ShapeWalker {
    var keysSeen: nat

    constructor ()
      ensures keysSeen == 0
    {
      keysSeen := 0;
    }

    method WalkValue(value: Body, depth: nat, emit: bool) returns (written: Result<Evidence, string>)
      modifies this
      ensures var spec := Walk(value, depth, emit, old(keysSeen));
        if spec.Err? then written == Err(spec.error) else written == Ok(spec.value.evidence) && keysSeen == spec.value.seen
      decreases value
    {
      if depth > MAX_DEPTH { return Err("SHAPE_DEPTH_EXCEEDED"); }
      var kind := ClassOf(value);
      if kind.None? { return Err("SHAPE_TYPE_INVALID"); }
      if value.Object? {
        keysSeen := keysSeen + Count(value.members);
        if keysSeen > MAX_KEYS { return Err("SHAPE_KEYS_EXCEEDED"); }
        var known, unknown, rest := map[], 0, value.members;
        ghost var start := Inside(map[], 0, keysSeen);
        while rest.Member?
          invariant rest == value.members || rest < value.members
          invariant WalkMembers(value.members, depth, emit, start) == WalkMembers(rest, depth, emit, Inside(known, unknown, keysSeen))
          decreases rest
        {
          if rest.key.NotText? { return Err("SHAPE_TYPE_INVALID"); }
          if rest.key.Approved? {
            var child := WalkValue(rest.value, depth + 1, emit);
            if child.Err? { return Err(child.error); }
            if emit {
              known := known[Field(rest.key.name) := child.value];
            }
          } else {
            unknown := unknown + 1;
            var child := WalkValue(rest.value, depth + 1, false);
            if child.Err? { return Err(child.error); }
          }
          rest := rest.rest;
        }
        return Ok(if emit then Shape(known, unknown) else Leaf(ObjectClass));
      }
      if value.Array? {
        ghost var start := keysSeen;
        var rest := value.items;
        while rest.Item?
          invariant rest == value.items || rest < value.items
          invariant WalkItems(value.items, depth, start) == WalkItems(rest, depth, keysSeen)
          decreases rest
        {
          var child := WalkValue(rest.head, depth + 1, false);
          if child.Err? { return Err(child.error); }
          rest := rest.tail;
        }
        return Ok(Leaf(ArrayClass));
      }
      return Ok(Leaf(kind.value));
    }
  }

  // ----- The reader -----

  /** Exactly the redacted grammar, with the same depth and key bounds. */
  function Validate(e: Evidence, depth: nat, seen: nat): Result<nat, string>
    decreases e, |NAMES| + 1
  {
    if depth > MAX_DEPTH || !e.Dict? || Type !in e.entries || !e.entries[Type].Kind? then Err("DESCRIPTOR_INVALID")
    else if !e.entries[Type].kind.ObjectClass? then
      if e.entries.Keys == {Type} then Ok(seen) else Err("DESCRIPTOR_INVALID")
    else if e.entries.Keys != {Type, Fields, UnknownFields} then Err("DESCRIPTOR_INVALID")
    else
      var fields, unknown := e.entries[Fields], e.entries[UnknownFields];
      if !fields.Dict? || (exists key <- fields.entries.Keys :: !key.Field?) || !unknown.Int? || unknown.i < 0 then Err("DESCRIPTOR_INVALID")
      else if seen + |fields.entries| + unknown.i > MAX_KEYS then Err("DESCRIPTOR_INVALID")
      else ValidateFields(fields, depth, seen + |fields.entries| + unknown.i, 0)
  }

  function ValidateFields(fields: Evidence, depth: nat, seen: nat, i: nat): Result<nat, string>
    requires fields.Dict? && i <= |NAMES|
    decreases fields, |NAMES| - i
  {
    if i == |NAMES| then Ok(seen)
    else if Field(NAMES[i]) !in fields.entries then ValidateFields(fields, depth, seen, i + 1)
    else
      var after :- Validate(fields.entries[Field(NAMES[i])], depth + 1, seen);
      ValidateFields(fields, depth, after, i + 1)
  }

  // ----- Keys and encoded length -----

  function FieldsOf(e: Evidence): (fields: Evidence)
    ensures fields.Dict? && (fields == Dict(map[]) || fields < e)
  {
    if e.Dict? && Fields in e.entries && e.entries[Fields].Dict? then e.entries[Fields] else Dict(map[])
  }

  function UnknownOf(e: Evidence): nat {
    if e.Dict? && UnknownFields in e.entries && e.entries[UnknownFields].Int? && e.entries[UnknownFields].i >= 0
    then e.entries[UnknownFields].i else 0
  }

  /** Every name counted anywhere in a descriptor. */
  function Keys(e: Evidence): nat
    decreases e, |NAMES| + 1
  {
    var fields := FieldsOf(e);
    |fields.entries| + UnknownOf(e) + (if fields.entries == map[] then 0 else KeysBelow(fields, 0))
  }

  function KeysBelow(fields: Evidence, i: nat): nat
    requires fields.Dict? && i <= |NAMES|
    decreases fields, |NAMES| - i
  {
    if i == |NAMES| then 0
    else (if Field(NAMES[i]) in fields.entries then Keys(fields.entries[Field(NAMES[i])]) else 0) + KeysBelow(fields, i + 1)
  }

  function NameLength(name: Name): nat {
    match name
    case AccountId => 9 case AccountIndex => 12 case AccountIndexForKeyGeneration => 28 case BridgeStarknetAddress => 21 case Data => 4
    case Description => 11 case Error => 5 case Id => 2 case L2Key => 5 case L2Vault => 7 case Pagination => 10 case Status => 6
  }

  function ClassLength(kind: Class): nat {
    match kind
    case ObjectClass => 6 case ArrayClass => 5 case StringClass => 6 case IntegerClass => 7 case NumberClass => 6 case BooleanClass => 7
    case NullClass => 4
  }

  function Digits(n: nat): nat {
    if n < 10 then 1 else 1 + Digits(n / 10)
  }

  /** Bytes of the compact encoding: 11 around a class name, 47 around the fields and the unknown count of an object,
      and quotes and a colon around each name, with a comma between names. */
  function EncodedLength(e: Evidence): nat
    decreases e, |NAMES| + 1
  {
    if !e.Dict? || Type !in e.entries || !e.entries[Type].Kind? then 0
    else if !e.entries[Type].kind.ObjectClass? || Fields !in e.entries then 11 + ClassLength(e.entries[Type].kind)
    else
      var fields := FieldsOf(e);
      var commas := if |fields.entries| > 0 then |fields.entries| - 1 else 0;
      47 + Digits(UnknownOf(e)) + commas + (if fields.entries == map[] then 0 else LengthBelow(fields, 0))
  }

  function LengthBelow(fields: Evidence, i: nat): nat
    requires fields.Dict? && i <= |NAMES|
    decreases fields, |NAMES| - i
  {
    if i == |NAMES| then 0
    else (if Field(NAMES[i]) in fields.entries then NameLength(NAMES[i]) + 3 + EncodedLength(fields.entries[Field(NAMES[i])]) else 0)
         + LengthBelow(fields, i + 1)
  }
}
