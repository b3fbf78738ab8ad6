/** A parsed JSON document, and what `#[derive(Deserialize)]` does with it
    for a struct of three named fields when read by `serde_json`. */
module Serde {
  import opened Wrappers

  /** A JSON value after lexing. An object keeps its members in document
      order, repeated keys included; number literals are kept as text
      because the action never reads one. */
  datatype Json =
    | Null
    | Bool(b: bool)
    | Number(literal: string)
    | Str(s: string)
    | Array(items: seq<Json>)
    | Object(members: seq<(string, Json)>)

  datatype DeError =
    | InvalidType(expected: string)
    | UnknownVariant(name: string)
    | MissingField(field: string)
    | DuplicateField(field: string)
    | InvalidLength(got: nat)
    | TrailingElements

  /** The declared names of a struct's three fields, in declaration order. */
  datatype FieldNames = FieldNames(first: string, second: string, third: string)
  {
    predicate Distinct()
    {
      first != second && first != third && second != third
    }
  }

  /** The derived visitor's state: the field values read so far. */
  datatype Slots<A, B, C> = Slots(a: Option<A>, b: Option<B>, c: Option<C>)

  /** How many members of the object carry the key `k`. */
  function KeyCount(members: seq<(string, Json)>, k: string): nat
  {
    if members == [] then 0
    else (if members[0].0 == k then 1 else 0) + KeyCount(members[1..], k)
  }

  /** The value of the first member with key `k`. */
  function Lookup(members: seq<(string, Json)>, k: string): Json
    requires KeyCount(members, k) > 0
  {
    if members[0].0 == k then members[0].1 else Lookup(members[1..], k)
  }

  /** The derived `visit_map`: members are read in order; a member whose
      key names a field already read is `DuplicateField`, one whose value
      does not deserialize fails with that error, one with any other key is
      skipped; at the end, the first field (in declaration order) never
      seen is `MissingField`. */
  function VisitMap<A, B, C>(names: FieldNames,
                             pa: Json -> Result<A, DeError>,
                             pb: Json -> Result<B, DeError>,
                             pc: Json -> Result<C, DeError>,
                             members: seq<(string, Json)>,
                             acc: Slots<A, B, C>): Result<(A, B, C), DeError>
    decreases |members|
  {
    if members == [] then
      if acc.a.None? then Err(MissingField(names.first))
      else if acc.b.None? then Err(MissingField(names.second))
      else if acc.c.None? then Err(MissingField(names.third))
      else Ok((acc.a.value, acc.b.value, acc.c.value))
    else
      var (k, v) := members[0];
      if k == names.first then
        if acc.a.Some? then Err(DuplicateField(k))
        else (match pa(v)
          case Err(e) => Err(e)
          case Ok(x) => VisitMap(names, pa, pb, pc, members[1..], acc.(a := Some(x))))
      else if k == names.second then
        if acc.b.Some? then Err(DuplicateField(k))
        else (match pb(v)
          case Err(e) => Err(e)
          case Ok(x) => VisitMap(names, pa, pb, pc, members[1..], acc.(b := Some(x))))
      else if k == names.third then
        if acc.c.Some? then Err(DuplicateField(k))
        else (match pc(v)
          case Err(e) => Err(e)
          case Ok(x) => VisitMap(names, pa, pb, pc, members[1..], acc.(c := Some(x))))
      else VisitMap(names, pa, pb, pc, members[1..], acc)
  }

  /** The derived `visit_seq`: the fields are read from the elements in
      declaration order; too few elements is `InvalidLength`, and
      `serde_json` refuses elements left over after the third. */
  function VisitSeq<A, B, C>(pa: Json -> Result<A, DeError>,
                             pb: Json -> Result<B, DeError>,
                             pc: Json -> Result<C, DeError>,
                             items: seq<Json>): Result<(A, B, C), DeError>
  {
    if |items| < 1 then Err(InvalidLength(0))
    else match pa(items[0])
      case Err(e) => Err(e)
      case Ok(x) =>
        if |items| < 2 then Err(InvalidLength(1))
        else match pb(items[1])
          case Err(e) => Err(e)
          case Ok(y) =>
            if |items| < 3 then Err(InvalidLength(2))
            else match pc(items[2])
              case Err(e) => Err(e)
              case Ok(z) => if |items| > 3 then Err(TrailingElements) else Ok((x, y, z))
  }

  /** The array form succeeds exactly on three elements that each read as
      their field, in declaration order, and holds those values. */
  lemma VisitSeqMeaning<A, B, C>(pa: Json -> Result<A, DeError>,
                                 pb: Json -> Result<B, DeError>,
                                 pc: Json -> Result<C, DeError>,
                                 items: seq<Json>)
    ensures VisitSeq(pa, pb, pc, items).Ok? <==>
      |items| == 3 && pa(items[0]).Ok? && pb(items[1]).Ok? && pc(items[2]).Ok?
    ensures VisitSeq(pa, pb, pc, items).Ok? ==>
      VisitSeq(pa, pb, pc, items).value == (pa(items[0]).value, pb(items[1]).value, pc(items[2]).value)
  {
  }

  /** A three-field struct: `serde_json` reads it from an object or from an
      array; any other JSON value is the wrong type. */
  function Struct3<A, B, C>(expecting: string, names: FieldNames,
                            pa: Json -> Result<A, DeError>,
                            pb: Json -> Result<B, DeError>,
                            pc: Json -> Result<C, DeError>,
                            v: Json): Result<(A, B, C), DeError>
  {
    match v
    case Object(members) => VisitMap(names, pa, pb, pc, members, Slots(None, None, None))
    case Array(items) => VisitSeq(pa, pb, pc, items)
    case _ => Err(InvalidType(expecting))
  }

  /** A field is settled by the rest of the object when it was read
      already and does not recur, or was not read yet and occurs once with
      a value that deserializes. */
  ghost predicate SlotOk<T>(members: seq<(string, Json)>, name: string, slot: Option<T>,
                            p: Json -> Result<T, DeError>)
  {
    if slot.Some? then KeyCount(members, name) == 0
    else KeyCount(members, name) == 1 && p(Lookup(members, name)).Ok?
  }

  ghost function SlotValue<T>(members: seq<(string, Json)>, name: string, slot: Option<T>,
                              p: Json -> Result<T, DeError>): T
    requires SlotOk(members, name, slot, p)
  {
    if slot.Some? then slot.value else p(Lookup(members, name)).value
  }

  lemma {:induction false} KeyCountLookupRest(members: seq<(string, Json)>, k: string)
    requires members != [] && members[0].0 != k
    ensures KeyCount(members, k) == KeyCount(members[1..], k)
    ensures KeyCount(members, k) > 0 ==> Lookup(members, k) == Lookup(members[1..], k)
  {
  }

  /** The object form succeeds exactly when every field is settled (each
      declared field occurs exactly once overall, with a value of the right
      shape), whatever other keys the object has and in whatever order; the
      result holds the value of each field's member. */
  lemma {:induction false} VisitMapMeaning<A, B, C>(names: FieldNames,
                                                   pa: Json -> Result<A, DeError>,
                                                   pb: Json -> Result<B, DeError>,
                                                   pc: Json -> Result<C, DeError>,
                                                   members: seq<(string, Json)>,
                                                   acc: Slots<A, B, C>)
    requires names.Distinct()
    ensures VisitMap(names, pa, pb, pc, members, acc).Ok? <==>
      SlotOk(members, names.first, acc.a, pa)
      && SlotOk(members, names.second, acc.b, pb)
      && SlotOk(members, names.third, acc.c, pc)
    ensures VisitMap(names, pa, pb, pc, members, acc).Ok? ==>
      VisitMap(names, pa, pb, pc, members, acc).value ==
        (SlotValue(members, names.first, acc.a, pa),
         SlotValue(members, names.second, acc.b, pb),
         SlotValue(members, names.third, acc.c, pc))
    decreases |members|
  {
    if members != [] {
      var (k, v) := members[0];
      var rest := members[1..];
      if k == names.first {
        KeyCountLookupRest(members, names.second);
        KeyCountLookupRest(members, names.third);
        if acc.a.None? && pa(v).Ok? {
          VisitMapMeaning(names, pa, pb, pc, rest, acc.(a := Some(pa(v).value)));
        }
      } else if k == names.second {
        KeyCountLookupRest(members, names.first);
        KeyCountLookupRest(members, names.third);
        if acc.b.None? && pb(v).Ok? {
          VisitMapMeaning(names, pa, pb, pc, rest, acc.(b := Some(pb(v).value)));
        }
      } else if k == names.third {
        KeyCountLookupRest(members, names.first);
        KeyCountLookupRest(members, names.second);
        if acc.c.None? && pc(v).Ok? {
          VisitMapMeaning(names, pa, pb, pc, rest, acc.(c := Some(pc(v).value)));
        }
      } else {
        KeyCountLookupRest(members, names.first);
        KeyCountLookupRest(members, names.second);
        KeyCountLookupRest(members, names.third);
        VisitMapMeaning(names, pa, pb, pc, rest, acc);
      }
    }
  }
}
