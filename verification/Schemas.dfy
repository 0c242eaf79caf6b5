/** Publishing request and response schemas in one map: request types whose two shapes
    differ get a name of their own, and references follow. */
module Schemas {
  import opened Common

  // --------------------------------------------------------------- schemas

  datatype Json =
    | Scalar(literal: string)
    | Text(text: string)
    | Array(items: Items)
    | Object(fields: Fields)

  datatype Items = NoItem | Item(head: Json, tail: Items)

  datatype Fields = NoField | Entry(key: string, val: Json, rest: Fields)

  /** Definitions by name. */
  type Defs = map<string, Json>

  const REF := "$ref"
  const PREFIX := "#/components/schemas/"
  const REQUEST_SUFFIX := "Request"

  function RefTo(name: string): Json {
    Text(PREFIX + name)
  }

  /** The definition a `$ref` value names, if it is of the local form. */
  function Target(val: Json): Option<string> {
    match val
    case Text(text) => if PREFIX <= text then Some(text[|PREFIX|..]) else None
    case _ => None
  }

  lemma TargetOfRef(name: string)
    ensures Target(RefTo(name)) == Some(name)
  {
  }

  /** A reference to a schema of the document: its key, and the text before the name. */
  lemma ReferencesAre(name: string)
    ensures REF == ['$', 'r', 'e', 'f'] && Target(Text("#/components/schemas/" + name)) == Some(name)
  {
  }

  // -------------------------------------------------------------- renaming

  function Published(renames: map<string, string>, name: string): string {
    if name in renames then renames[name] else name
  }

  function RenameTarget(val: Json, renames: map<string, string>): Json {
    match Target(val)
    case None => val
    case Some(name) => if name in renames then RefTo(renames[name]) else val
  }

  function RenameRefs(v: Json, renames: map<string, string>): Json {
    match v
    case Array(items) => Array(RenameItems(items, renames))
    case Object(fields) => Object(RenameFields(fields, renames))
    case _ => v
  }

  function RenameItems(items: Items, renames: map<string, string>): Items {
    match items
    case NoItem => NoItem
    case Item(head, tail) => Item(RenameRefs(head, renames), RenameItems(tail, renames))
  }

  function RenameFields(fields: Fields, renames: map<string, string>): Fields {
    match fields
    case NoField => NoField
    case Entry(key, val, rest) =>
      Entry(key, if key == REF then RenameTarget(val, renames) else RenameRefs(val, renames), RenameFields(rest, renames))
  }

  /** A renamed reference points where the original did, under its published name. */
  lemma RenamedTarget(val: Json, renames: map<string, string>)
    ensures Target(RenameTarget(val, renames)) ==
            match Target(val) case None => None case Some(name) => Some(Published(renames, name))
  {
    match Target(val)
    case None =>
    case Some(name) =>
      if name in renames {
        TargetOfRef(renames[name]);
      }
  }

  // --------------------------------------------------------------- meaning

  /** The names a schema refers to. */
  function Refs(v: Json): set<string> {
    match v
    case Array(items) => ItemRefs(items)
    case Object(fields) => FieldRefs(fields)
    case _ => {}
  }

  function ItemRefs(items: Items): set<string> {
    match items
    case NoItem => {}
    case Item(head, tail) => Refs(head) + ItemRefs(tail)
  }

  function TargetSet(val: Json): set<string> {
    match Target(val)
    case None => {}
    case Some(name) => {name}
  }

  function FieldRefs(fields: Fields): set<string> {
    match fields
    case NoField => {}
    case Entry(key, val, rest) => (if key == REF then TargetSet(val) else Refs(val)) + FieldRefs(rest)
  }

  const CUT := Scalar("...")

  /** A schema with its references unfolded `depth` deep.  Names are gone from the
      result: a reference beyond the depth leaves only a mark, and only a reference
      to nothing stays as it is. */
  function Expand(defs: Defs, v: Json, depth: nat): Json
    decreases depth, v
  {
    match v
    case Array(items) => Array(ExpandItems(defs, items, depth))
    case Object(fields) => Object(ExpandFields(defs, fields, depth))
    case _ => v
  }

  function ExpandItems(defs: Defs, items: Items, depth: nat): Items
    decreases depth, items
  {
    match items
    case NoItem => NoItem
    case Item(head, tail) => Item(Expand(defs, head, depth), ExpandItems(defs, tail, depth))
  }

  function ExpandTarget(defs: Defs, val: Json, depth: nat): Json
    decreases depth, val, 0
  {
    match Target(val)
    case None => val
    case Some(name) => if name !in defs then val else if depth == 0 then CUT else Expand(defs, defs[name], depth - 1)
  }

  function ExpandFields(defs: Defs, fields: Fields, depth: nat): Fields
    decreases depth, fields
  {
    match fields
    case NoField => NoField
    case Entry(key, val, rest) =>
      Entry(key, if key == REF then ExpandTarget(defs, val, depth) else Expand(defs, val, depth), ExpandFields(defs, rest, depth))
  }

  /** Every reference resolves. */
  ghost predicate Closed(defs: Defs) {
    forall name :: name in defs ==> Refs(defs[name]) <= defs.Keys
  }

  // --------------------------------------------------- renaming and meaning

  /** `names` mean the same in `a` and `b` up to `depth`, once renamed. */
  ghost predicate SameAt(a: Defs, b: Defs, renames: map<string, string>, names: set<string>, depth: nat) {
    forall name :: name in names ==>
      && Published(renames, name) in a && name in b
      && (depth > 0 ==> Expand(a, a[Published(renames, name)], depth - 1) == Expand(b, b[name], depth - 1))
  }

  /** A renamed schema means what the original meant, if the names it uses do. */
  lemma {:induction false} RenamedMeansSame(a: Defs, b: Defs, renames: map<string, string>, v: Json, depth: nat)
    requires SameAt(a, b, renames, Refs(v), depth)
    ensures Expand(a, RenameRefs(v, renames), depth) == Expand(b, v, depth)
    decreases v
  {
    match v
    case Array(items) => RenamedItemsMeanSame(a, b, renames, items, depth);
    case Object(fields) => RenamedFieldsMeanSame(a, b, renames, fields, depth);
    case _ =>
  }

  lemma {:induction false} RenamedItemsMeanSame(a: Defs, b: Defs, renames: map<string, string>, items: Items, depth: nat)
    requires SameAt(a, b, renames, ItemRefs(items), depth)
    ensures ExpandItems(a, RenameItems(items, renames), depth) == ExpandItems(b, items, depth)
    decreases items
  {
    match items
    case NoItem =>
    case Item(head, tail) =>
      RenamedMeansSame(a, b, renames, head, depth);
      RenamedItemsMeanSame(a, b, renames, tail, depth);
  }

  lemma RenamedTargetMeansSame(a: Defs, b: Defs, renames: map<string, string>, val: Json, depth: nat)
    requires SameAt(a, b, renames, TargetSet(val), depth)
    ensures ExpandTarget(a, RenameTarget(val, renames), depth) == ExpandTarget(b, val, depth)
  {
    RenamedTarget(val, renames);
    match Target(val)
    case None =>
    case Some(name) => assert name in TargetSet(val);
  }

  lemma {:induction false} RenamedFieldsMeanSame(a: Defs, b: Defs, renames: map<string, string>, fields: Fields, depth: nat)
    requires SameAt(a, b, renames, FieldRefs(fields), depth)
    ensures ExpandFields(a, RenameFields(fields, renames), depth) == ExpandFields(b, fields, depth)
    decreases fields
  {
    match fields
    case NoField =>
    case Entry(key, val, rest) =>
      if key == REF {
        RenamedTargetMeansSame(a, b, renames, val, depth);
      } else {
        RenamedMeansSame(a, b, renames, val, depth);
      }
      RenamedFieldsMeanSame(a, b, renames, rest, depth);
  }

  /** The converse: where a renamed schema means what the original meant, so does every
      name it uses, one level down. */
  lemma {:induction false} SameMeaningBelow(a: Defs, b: Defs, renames: map<string, string>, v: Json, depth: nat, name: string)
    requires Expand(a, RenameRefs(v, renames), depth + 1) == Expand(b, v, depth + 1)
    requires name in Refs(v) && name in b && Published(renames, name) in a
    ensures Expand(a, a[Published(renames, name)], depth) == Expand(b, b[name], depth)
    decreases v
  {
    match v
    case Array(items) => SameItemsBelow(a, b, renames, items, depth, name);
    case Object(fields) => SameFieldsBelow(a, b, renames, fields, depth, name);
  }

  lemma {:induction false} SameItemsBelow(a: Defs, b: Defs, renames: map<string, string>, items: Items, depth: nat, name: string)
    requires ExpandItems(a, RenameItems(items, renames), depth + 1) == ExpandItems(b, items, depth + 1)
    requires name in ItemRefs(items) && name in b && Published(renames, name) in a
    ensures Expand(a, a[Published(renames, name)], depth) == Expand(b, b[name], depth)
    decreases items
  {
    if name in Refs(items.head) {
      SameMeaningBelow(a, b, renames, items.head, depth, name);
    } else {
      SameItemsBelow(a, b, renames, items.tail, depth, name);
    }
  }

  lemma {:induction false} SameFieldsBelow(a: Defs, b: Defs, renames: map<string, string>, fields: Fields, depth: nat, name: string)
    requires ExpandFields(a, RenameFields(fields, renames), depth + 1) == ExpandFields(b, fields, depth + 1)
    requires name in FieldRefs(fields) && name in b && Published(renames, name) in a
    ensures Expand(a, a[Published(renames, name)], depth) == Expand(b, b[name], depth)
    decreases fields
  {
    if name in FieldRefs(fields.rest) {
      SameFieldsBelow(a, b, renames, fields.rest, depth, name);
    } else if fields.key == REF {
      RenamedTarget(fields.val, renames);
    } else {
      SameMeaningBelow(a, b, renames, fields.val, depth, name);
    }
  }

  /** The references of a renamed schema are the published names. */
  lemma {:induction false} RenamedRefs(v: Json, renames: map<string, string>)
    ensures Refs(RenameRefs(v, renames)) == set name | name in Refs(v) :: Published(renames, name)
    decreases v
  {
    match v
    case Array(items) => RenamedItemRefs(items, renames);
    case Object(fields) => RenamedFieldRefs(fields, renames);
    case _ =>
  }

  lemma {:induction false} RenamedItemRefs(items: Items, renames: map<string, string>)
    ensures ItemRefs(RenameItems(items, renames)) == set name | name in ItemRefs(items) :: Published(renames, name)
    decreases items
  {
    match items
    case NoItem =>
    case Item(head, tail) =>
      RenamedRefs(head, renames);
      RenamedItemRefs(tail, renames);
  }

  lemma {:induction false} RenamedFieldRefs(fields: Fields, renames: map<string, string>)
    ensures FieldRefs(RenameFields(fields, renames)) == set name | name in FieldRefs(fields) :: Published(renames, name)
    decreases fields
  {
    match fields
    case NoField =>
    case Entry(key, val, rest) =>
      if key == REF {
        RenamedTarget(val, renames);
      } else {
        RenamedRefs(val, renames);
      }
      RenamedFieldRefs(rest, renames);
  }
}
