/**
 The writer's descriptors are always read back, always small, and say nothing but approved names,
 type classes and counts.
 */
module ShapeTheorems {
  import opened Wrappers
  import opened ShapeDescriptor

  // ----- What a descriptor says -----

  function BodySize(value: Body): nat {
    match value
    case Object(members) => 1 + MembersSize(members)
    case _ => 0
  }

  function MembersSize(members: Members): nat {
    match members case NoMembers => 0 case Member(_, value, rest) => 1 + BodySize(value) + MembersSize(rest)
  }

  /** The value under an approved name; the last one, as a dictionary has it. */
  function Find(members: Members, name: Name): (found: Option<Body>)
    ensures found.Some? ==> BodySize(found.value) < MembersSize(members)
  {
    match members
    case NoMembers => None
    case Member(key, value, rest) =>
      var later := Find(rest, name);
      if later.Some? then later else if key == Approved(name) then Some(value) else None
  }

  function UnknownNames(members: Members): nat {
    match members
    case NoMembers => 0
    case Member(key, _, rest) => (if key.Unapproved? then 1 else 0) + UnknownNames(rest)
  }

  /** The redaction of a body: no depth, no counting, no values. */
  function Redact(value: Body): Evidence
    decreases BodySize(value), 1
  {
    match value
    case Object(members) => Shape(RedactMembers(members), UnknownNames(members))
    case _ => if ClassOf(value).Some? then Leaf(ClassOf(value).value) else Junk
  }

  function RedactMembers(members: Members): map<Key, Evidence>
    decreases MembersSize(members), 0
  {
    map name: Name | Find(members, name).Some? :: Field(name) := Redact(Find(members, name).value)
  }

  /** Whatever the walk writes is the redaction, however deep and however many keys went before. */
  lemma {:induction false} WalkRedacts(value: Body, depth: nat, seen: nat)
    ensures var walked := Walk(value, depth, true, seen); walked.Ok? ==> walked.value.evidence == Redact(value)
    decreases value
  {
    if value.Object? && depth <= MAX_DEPTH && seen + Count(value.members) <= MAX_KEYS {
      var inside := Inside(map[], 0, seen + Count(value.members));
      MembersRedact(value.members, depth, inside);
      assert inside.known + RedactMembers(value.members) == RedactMembers(value.members);
    }
  }

  lemma {:induction false} MembersRedact(members: Members, depth: nat, inside: Inside)
    ensures var after := WalkMembers(members, depth, true, inside);
      after.Ok? ==> after.value.known == inside.known + RedactMembers(members)
                    && after.value.unknown == inside.unknown + UnknownNames(members)
    decreases members
  {
    if members.Member? && WalkMembers(members, depth, true, inside).Ok? {
      var rest := members.rest;
      if members.key.Approved? {
        var child := Walk(members.value, depth + 1, true, inside.seen).value;
        var next := Inside(inside.known[Field(members.key.name) := child.evidence], inside.unknown, child.seen);
        WalkRedacts(members.value, depth + 1, inside.seen);
        MembersRedact(rest, depth, next);
        RedactFirst(members, inside.known);
      } else {
        var child := Walk(members.value, depth + 1, false, inside.seen).value;
        MembersRedact(rest, depth, Inside(inside.known, inside.unknown + 1, child.seen));
        assert RedactMembers(members) == RedactMembers(rest);
      }
    }
  }

  lemma RedactFirst(members: Members, known: map<Key, Evidence>)
    requires members.Member? && members.key.Approved?
    ensures known[Field(members.key.name) := Redact(members.value)] + RedactMembers(members.rest) == known + RedactMembers(members)
  {
    var left := known[Field(members.key.name) := Redact(members.value)] + RedactMembers(members.rest);
    var right := known + RedactMembers(members);
    RedactFirstMember(members);
    hide RedactMembers, Redact;
    assert left.Keys == right.Keys;
    assert forall key <- left.Keys :: left[key] == right[key];
  }

  /** The first member is written unless a later one has its name. */
  lemma RedactFirstMember(members: Members)
    requires members.Member? && members.key.Approved?
    ensures RedactMembers(members) == map[Field(members.key.name) := Redact(members.value)] + RedactMembers(members.rest)
  {
    hide Redact;
    var name := members.key.name;
    assert forall other: Name | other != name :: Find(members, other) == Find(members.rest, other);
    assert Find(members, name) == if Find(members.rest, name).Some? then Find(members.rest, name) else Some(members.value);
    hide Find;
    assert RedactMembers(members).Keys == {Field(name)} + RedactMembers(members.rest).Keys;
  }

  /** Two bodies of one allowed shape: the same class, as many other names, and under each approved name the same shape or nothing.
      Values, and everything under other names or inside arrays, are free. */
  ghost predicate SameShape(a: Body, b: Body)
    decreases BodySize(a)
  {
    && ClassOf(a) == ClassOf(b)
    && (a.Object? ==>
          && UnknownNames(a.members) == UnknownNames(b.members)
          && forall name: Name ::
            && (Find(a.members, name).Some? <==> Find(b.members, name).Some?)
            && (Find(a.members, name).Some? ==> SameShape(Find(a.members, name).value, Find(b.members, name).value)))
  }

  lemma {:induction false} SameShapeRedacts(a: Body, b: Body)
    requires SameShape(a, b)
    ensures Redact(a) == Redact(b)
    decreases BodySize(a)
  {
    if a.Object? {
      forall name: Name | Find(a.members, name).Some?
        ensures Redact(Find(a.members, name).value) == Redact(Find(b.members, name).value)
      {
        SameShapeRedacts(Find(a.members, name).value, Find(b.members, name).value);
      }
      assert RedactMembers(a.members) == RedactMembers(b.members);
    }
  }

  /** Redaction: accepted bodies of one shape are described alike. */
  lemma DescribeSaysOnlyShape(a: Body, b: Body)
    requires SameShape(a, b)
    ensures Describe(a).Ok? && Describe(b).Ok? ==> Describe(a) == Describe(b)
  {
    hide Walk, SameShape, Redact, EncodedLength;
    WalkRedacts(a, 0, 0);
    WalkRedacts(b, 0, 0);
    SameShapeRedacts(a, b);
  }

  // ----- The grammar -----

  /** The redacted grammar, without the key bound. */
  ghost predicate Grammar(e: Evidence, depth: nat)
    decreases e
  {
    && depth <= MAX_DEPTH && e.Dict? && Type in e.entries && e.entries[Type].Kind?
    && (if !e.entries[Type].kind.ObjectClass? then e.entries.Keys == {Type}
        else
          && e.entries.Keys == {Type, Fields, UnknownFields}
          && e.entries[UnknownFields].Int? && e.entries[UnknownFields].i >= 0
          && e.entries[Fields].Dict?
          && (forall key <- e.entries[Fields].entries.Keys :: key.Field? && Grammar(e.entries[Fields].entries[key], depth + 1)))
  }

  function Rank(name: Name): (rank: nat)
    ensures rank < |NAMES| && NAMES[rank] == name
  {
    match name
    case AccountId => 0 case AccountIndex => 1 case AccountIndexForKeyGeneration => 2 case BridgeStarknetAddress => 3 case Data => 4
    case Description => 5 case Error => 6 case Id => 7 case L2Key => 8 case L2Vault => 9 case Pagination => 10 case Status => 11
  }

  lemma RankOf(i: nat)
    requires i < |NAMES|
    ensures Rank(NAMES[i]) == i
  {
  }

  lemma {:induction false} KeysBelowNothing(i: nat)
    requires i <= |NAMES|
    ensures KeysBelow(Dict(map[]), i) == 0
    decreases |NAMES| - i
  {
    if i < |NAMES| {
      KeysBelowNothing(i + 1);
    }
  }

  /** Writing one name adds at most the keys below it. */
  lemma {:induction false} KeysInsert(known: map<Key, Evidence>, name: Name, child: Evidence, i: nat)
    requires i <= |NAMES|
    ensures KeysBelow(Dict(known[Field(name) := child]), i)
         <= KeysBelow(Dict(known), i) + if i <= Rank(name) then Keys(child) else 0
    decreases |NAMES| - i
  {
    hide Keys;
    if i < |NAMES| {
      KeysInsert(known, name, child, i + 1);
      RankOf(i);
    }
  }

  lemma KeysOfShape(known: map<Key, Evidence>, unknown: nat)
    ensures Keys(Shape(known, unknown)) == |known| + unknown + KeysBelow(Dict(known), 0)
  {
    KeysBelowNothing(0);
    assert FieldsOf(Shape(known, unknown)) == Dict(known);
  }

  lemma KeysOfLeaf(kind: Class)
    ensures Keys(Leaf(kind)) == 0
  {
    assert FieldsOf(Leaf(kind)) == Dict(map[]);
  }

  /** The walk stays inside the grammar and counts at least every key it writes. */
  lemma {:induction false} WalkCounts(value: Body, depth: nat, emit: bool, seen: nat)
    ensures var walked := Walk(value, depth, emit, seen);
      walked.Ok? ==> (emit ==> Grammar(walked.value.evidence, depth)) && seen + Keys(walked.value.evidence) <= walked.value.seen
                     && (seen <= MAX_KEYS ==> walked.value.seen <= MAX_KEYS)
    decreases value
  {
    hide Keys, KeysBelow, Grammar;
    var walked := Walk(value, depth, emit, seen);
    if walked.Ok? {
      match value {
        case Object(members) =>
          var start := Inside(map[], 0, seen + Count(members));
          var inside := WalkMembers(members, depth, emit, start).value;
          KeysBelowNothing(0);
          MembersCount(members, depth, emit, start);
          KeysOfShape(inside.known, inside.unknown);
          ShapeIsGrammar(inside.known, inside.unknown, depth);
          KeysOfLeaf(ObjectClass);
        case Array(items) =>
          ItemsCount(items, depth, seen);
          KeysOfLeaf(ArrayClass);
          LeafIsGrammar(ArrayClass, depth);
        case NotFinite =>
        case Foreign =>
        case _ =>
          KeysOfLeaf(ClassOf(value).value);
          LeafIsGrammar(ClassOf(value).value, depth);
      }
    }
  }

  lemma LeafIsGrammar(kind: Class, depth: nat)
    requires !kind.ObjectClass? && depth <= MAX_DEPTH
    ensures Grammar(Leaf(kind), depth)
  {
  }

  ghost predicate KnownOk(known: map<Key, Evidence>, depth: nat) {
    forall key <- known.Keys :: key.Field? && Grammar(known[key], depth + 1)
  }

  lemma ShapeIsGrammar(known: map<Key, Evidence>, unknown: nat, depth: nat)
    requires KnownOk(known, depth) && depth <= MAX_DEPTH
    ensures Grammar(Shape(known, unknown), depth)
  {
    var e := Shape(known, unknown);
    assert e.entries[Fields] == Dict(known);
  }

  lemma {:induction false} MembersCount(members: Members, depth: nat, emit: bool, inside: Inside)
    requires KnownOk(inside.known, depth)
    ensures var after := WalkMembers(members, depth, emit, inside);
      after.Ok? ==> KnownOk(after.value.known, depth)
                    && inside.seen + KeysBelow(Dict(after.value.known), 0) <= after.value.seen + KeysBelow(Dict(inside.known), 0)
                    && inside.seen <= after.value.seen
                    && |after.value.known| + after.value.unknown <= |inside.known| + inside.unknown + Count(members)
                    && (inside.seen <= MAX_KEYS ==> after.value.seen <= MAX_KEYS)
    decreases members
  {
    hide Keys, KeysBelow, Walk, Grammar;
    if members.Member? && WalkMembers(members, depth, emit, inside).Ok? {
      if members.key.Approved? {
        var child := Walk(members.value, depth + 1, emit, inside.seen).value;
        var known := if emit then inside.known[Field(members.key.name) := child.evidence] else inside.known;
        WalkCounts(members.value, depth + 1, emit, inside.seen);
        KeysInsert(inside.known, members.key.name, child.evidence, 0);
        InsertGrows(inside.known, Field(members.key.name), child.evidence);
        MembersCount(members.rest, depth, emit, Inside(known, inside.unknown, child.seen));
      } else {
        var child := Walk(members.value, depth + 1, false, inside.seen).value;
        WalkCounts(members.value, depth + 1, false, inside.seen);
        MembersCount(members.rest, depth, emit, Inside(inside.known, inside.unknown + 1, child.seen));
      }
    }
  }

  lemma InsertGrows(known: map<Key, Evidence>, key: Key, child: Evidence)
    ensures |known[key := child]| <= |known| + 1
  {
  }

  lemma {:induction false} ItemsCount(items: Items, depth: nat, seen: nat)
    ensures var after := WalkItems(items, depth, seen);
      after.Ok? ==> seen <= after.value && (seen <= MAX_KEYS ==> after.value <= MAX_KEYS)
    decreases items
  {
    if items.Item? {
      WalkCounts(items.head, depth + 1, false, seen);
      var child := Walk(items.head, depth + 1, false, seen);
      if child.Ok? {
        ItemsCount(items.tail, depth, child.value.seen);
      }
    }
  }

  // ----- The reader accepts exactly the grammar within the key bound -----

  lemma ValidateIsGrammar(e: Evidence, depth: nat, seen: nat)
    requires seen <= MAX_KEYS
    ensures Validate(e, depth, seen) == if Grammar(e, depth) && seen + Keys(e) <= MAX_KEYS then Ok(seen + Keys(e)) else Err("DESCRIPTOR_INVALID")
  {
    ValidateDecides(e, depth, seen);
    OneRefusal(e, depth, seen);
    hide *;
  }

  lemma {:induction false} OneRefusal(e: Evidence, depth: nat, seen: nat)
    ensures Validate(e, depth, seen).Err? ==> Validate(e, depth, seen).error == "DESCRIPTOR_INVALID"
    decreases e, |NAMES| + 1
  {
    if Validate(e, depth, seen).Err? && e.Dict? && Fields in e.entries && e.entries[Fields].Dict? && UnknownFields in e.entries && e.entries[UnknownFields].Int?
      && e.entries[UnknownFields].i >= 0
    {
      FieldsOneRefusal(e.entries[Fields], depth, seen + |e.entries[Fields].entries| + e.entries[UnknownFields].i, 0);
      hide ValidateFields;
    }
  }

  lemma {:induction false} FieldsOneRefusal(fields: Evidence, depth: nat, seen: nat, i: nat)
    requires fields.Dict? && i <= |NAMES|
    ensures ValidateFields(fields, depth, seen, i).Err? ==> ValidateFields(fields, depth, seen, i).error == "DESCRIPTOR_INVALID"
    decreases fields, |NAMES| - i
  {
    if i < |NAMES| {
      ValidateFieldsNext(fields, depth, seen, i);
      hide *;
      if Field(NAMES[i]) in fields.entries {
        var child := fields.entries[Field(NAMES[i])];
        OneRefusal(child, depth + 1, seen);
        if Validate(child, depth + 1, seen).Ok? {
          FieldsOneRefusal(fields, depth, Validate(child, depth + 1, seen).value, i + 1);
        }
      } else {
        FieldsOneRefusal(fields, depth, seen, i + 1);
      }
    }
  }

  lemma {:induction false} ValidateDecides(e: Evidence, depth: nat, seen: nat)
    requires seen <= MAX_KEYS
    ensures Validate(e, depth, seen).Ok? <==> Grammar(e, depth) && seen + Keys(e) <= MAX_KEYS
    ensures Validate(e, depth, seen).Ok? ==> Validate(e, depth, seen).value == seen + Keys(e)
    decreases e, |NAMES| + 1
  {
    hide KeysBelow, ValidateFields;
    if e.Dict? && Type in e.entries && e.entries[Type].Kind? {
      if !e.entries[Type].kind.ObjectClass? {
        if e.entries.Keys == {Type} {
          assert e == Leaf(e.entries[Type].kind);
          KeysOfLeaf(e.entries[Type].kind);
        }
      } else if e.entries.Keys == {Type, Fields, UnknownFields} {
        var fields, unknown := e.entries[Fields], e.entries[UnknownFields];
        if fields.Dict? && unknown.Int? && unknown.i >= 0 {
          assert e == Shape(fields.entries, unknown.i);
          KeysOfShape(fields.entries, unknown.i);
          if seen + |fields.entries| + unknown.i <= MAX_KEYS {
            FieldsAreGrammar(fields, depth, seen + |fields.entries| + unknown.i, 0);
            ChildrenByRank(fields.entries, depth);
          }
        }
      }
    }
  }

  /** Looking every name up is looking at every entry. */
  lemma ChildrenByRank(entries: map<Key, Evidence>, depth: nat)
    ensures (forall key <- entries.Keys :: key.Field?) ==>
      ((forall key <- entries.Keys :: Grammar(entries[key], depth + 1)) <==>
       GrammarFrom(Dict(entries), depth, 0))
  {
    hide Grammar;
    forall key <- entries.Keys | key.Field? ensures key == Field(NAMES[Rank(key.name)]) {
    }
  }

  ghost predicate GrammarFrom(fields: Evidence, depth: nat, i: nat)
    requires fields.Dict?
  {
    forall j | i <= j < |NAMES| :: Field(NAMES[j]) in fields.entries ==> Grammar(fields.entries[Field(NAMES[j])], depth + 1)
  }

  lemma GrammarFromNext(fields: Evidence, depth: nat, i: nat)
    requires fields.Dict? && i < |NAMES|
    ensures GrammarFrom(fields, depth, i) <==>
      (Field(NAMES[i]) in fields.entries ==> Grammar(fields.entries[Field(NAMES[i])], depth + 1)) && GrammarFrom(fields, depth, i + 1)
  {
    hide Grammar;
  }

  lemma ValidateFieldsNext(fields: Evidence, depth: nat, seen: nat, i: nat)
    requires fields.Dict? && i < |NAMES|
    ensures ValidateFields(fields, depth, seen, i) ==
      if Field(NAMES[i]) !in fields.entries then ValidateFields(fields, depth, seen, i + 1)
      else match Validate(fields.entries[Field(NAMES[i])], depth + 1, seen)
        case Ok(after) => ValidateFields(fields, depth, after, i + 1)
        case Err(_) => Validate(fields.entries[Field(NAMES[i])], depth + 1, seen)
  {
    hide Validate;
  }

  lemma KeysBelowNext(fields: Evidence, i: nat)
    requires fields.Dict? && i < |NAMES|
    ensures KeysBelow(fields, i) ==
      (if Field(NAMES[i]) in fields.entries then Keys(fields.entries[Field(NAMES[i])]) else 0) + KeysBelow(fields, i + 1)
  {
    hide Keys;
  }

  lemma {:induction false} FieldsAreGrammar(fields: Evidence, depth: nat, seen: nat, i: nat)
    requires fields.Dict? && i <= |NAMES| && seen <= MAX_KEYS
    ensures ValidateFields(fields, depth, seen, i).Ok? <==> GrammarFrom(fields, depth, i) && seen + KeysBelow(fields, i) <= MAX_KEYS
    ensures ValidateFields(fields, depth, seen, i).Ok? ==> ValidateFields(fields, depth, seen, i).value == seen + KeysBelow(fields, i)
    decreases fields, |NAMES| - i
  {
    if i < |NAMES| {
      GrammarFromNext(fields, depth, i);
      ValidateFieldsNext(fields, depth, seen, i);
      KeysBelowNext(fields, i);
      hide *;
      if Field(NAMES[i]) in fields.entries {
        var child := fields.entries[Field(NAMES[i])];
        ValidateDecides(child, depth + 1, seen);
        if Grammar(child, depth + 1) && seen + Keys(child) <= MAX_KEYS {
          FieldsAreGrammar(fields, depth, seen + Keys(child), i + 1);
        }
      } else {
        FieldsAreGrammar(fields, depth, seen, i + 1);
      }
    }
  }

  // ----- The encoded length -----

  function NamesFrom(fields: Evidence, i: nat): nat
    requires fields.Dict? && i <= |NAMES|
    decreases |NAMES| - i
  {
    if i == |NAMES| then 0 else (if Field(NAMES[i]) in fields.entries then 1 else 0) + NamesFrom(fields, i + 1)
  }

  lemma {:induction false} NamesFromAtMost(fields: Evidence, i: nat, rest: set<Key>)
    requires fields.Dict? && i <= |NAMES|
    requires forall j | i <= j < |NAMES| && Field(NAMES[j]) in fields.entries :: Field(NAMES[j]) in rest
    ensures NamesFrom(fields, i) <= |rest|
    decreases |NAMES| - i
  {
    if i < |NAMES| {
      if Field(NAMES[i]) in fields.entries {
        RankOf(i);
        forall j | i + 1 <= j < |NAMES| && Field(NAMES[j]) in fields.entries ensures Field(NAMES[j]) in rest - {Field(NAMES[i])} {
          RankOf(j);
        }
        NamesFromAtMost(fields, i + 1, rest - {Field(NAMES[i])});
      } else {
        NamesFromAtMost(fields, i + 1, rest);
      }
    }
  }

  /** Each key costs at most 81 bytes: its name and punctuation, and an empty object under it. */
  lemma {:induction false} LengthBound(e: Evidence, depth: nat)
    requires Grammar(e, depth) && Keys(e) <= MAX_KEYS
    ensures EncodedLength(e) <= 49 + 81 * Keys(e)
    decreases e, |NAMES| + 1
  {
    hide KeysBelow, LengthBelow;
    if e.entries[Type].kind.ObjectClass? {
      var fields, unknown := e.entries[Fields], e.entries[UnknownFields].i;
      assert e == Shape(fields.entries, unknown);
      KeysOfShape(fields.entries, unknown);
      NamesFromAtMost(fields, 0, fields.entries.Keys);
      ChildrenByRank(fields.entries, depth);
      LengthBelowBound(fields, depth, 0);
      assert Digits(unknown) <= 2;
    }
  }

  lemma {:induction false} LengthBelowBound(fields: Evidence, depth: nat, i: nat)
    requires fields.Dict? && i <= |NAMES| && KeysBelow(fields, i) <= MAX_KEYS
    requires forall j | i <= j < |NAMES| :: Field(NAMES[j]) in fields.entries ==> Grammar(fields.entries[Field(NAMES[j])], depth + 1)
    ensures LengthBelow(fields, i) <= 80 * NamesFrom(fields, i) + 81 * KeysBelow(fields, i)
    decreases fields, |NAMES| - i
  {
    hide Keys, Grammar, EncodedLength;
    if i < |NAMES| {
      LengthBelowBound(fields, depth, i + 1);
      if Field(NAMES[i]) in fields.entries {
        LengthBound(fields.entries[Field(NAMES[i])], depth + 1);
      }
    }
  }

  // ----- Main results -----

  /** Every descriptor the writer returns is accepted by the reader, and the writer's own length check never fires. */
  lemma DescribedIsAccepted(body: Body)
    ensures Describe(body).Ok? ==> Validate(Describe(body).value, 0, 0).Ok?
    ensures Describe(body) == (var walked := Walk(body, 0, true, 0); if walked.Ok? then Ok(walked.value.evidence) else Err(walked.error))
    ensures Describe(body).Ok? ==> Describe(body).value == Redact(body)
  {
    hide Walk, Validate, Grammar, Keys, EncodedLength, Redact;
    WalkCounts(body, 0, true, 0);
    WalkRedacts(body, 0, 0);
    var walked := Walk(body, 0, true, 0);
    if walked.Ok? {
      ValidateIsGrammar(walked.value.evidence, 0, 0);
      LengthBound(walked.value.evidence, 0);
    }
  }

  /** Whatever durable evidence the reader accepts is short enough as well. */
  lemma AcceptedIsShort(e: Evidence)
    ensures Validate(e, 0, 0).Ok? <==> Grammar(e, 0) && Keys(e) <= MAX_KEYS
    ensures Validate(e, 0, 0).Ok? ==> EncodedLength(e) <= MAX_BYTES
  {
    hide Validate, Grammar, Keys, EncodedLength;
    ValidateIsGrammar(e, 0, 0);
    if Grammar(e, 0) && Keys(e) <= MAX_KEYS {
      LengthBound(e, 0);
    }
  }
}
