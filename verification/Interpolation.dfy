/** Task templates: `{{ path }}` slots filled from a webhook's payload, in one pass. */
module Interpolation {
  import opened Common
  import opened Utf8

  /** A payload; `Opaque` is a number, boolean or array, which a path cannot enter. */
  datatype Json = Null | Str(text: Bytes) | Object(members: map<Bytes, Json>) | Opaque(literal: Bytes)

  datatype Failure = Absent(path: Bytes) | NullAt(path: Bytes)

  /** The parts of the platform a substitution relies on: trimming white space, and
      printing a value that is not a string. */
  datatype Platform = Platform(trim: Bytes -> Bytes, show: Json -> Bytes)

  const OPEN: Byte := 0x7B
  const CLOSE: Byte := 0x7D
  const DOT: Byte := 0x2E

  // --------------------------------------------------------------- searching

  predicate PairAt(s: Bytes, b: Byte, i: nat) {
    i + 1 < |s| && s[i] == b && s[i + 1] == b
  }

  /** The first place two `b` stand together. */
  function FindPair(s: Bytes, b: Byte, from: nat): (at: Option<nat>)
    ensures at.Some? ==> from <= at.value && PairAt(s, b, at.value) && forall i :: from <= i < at.value ==> !PairAt(s, b, i)
    ensures at.None? ==> forall i :: from <= i ==> !PairAt(s, b, i)
    decreases |s| - from
  {
    if from + 1 >= |s| then None
    else if PairAt(s, b, from) then Some(from)
    else FindPair(s, b, from + 1)
  }

  // ----------------------------------------------------------------- parsing

  datatype Piece = Lit(text: Bytes) | Slot(raw: Bytes)

  /** A template's pieces, decided by the template alone. */
  function Parse(t: Bytes): seq<Piece>
    decreases |t|
  {
    match FindPair(t, OPEN, 0)
    case None => [Lit(t)]
    case Some(start) =>
      var after := t[start + 2..];
      match FindPair(after, CLOSE, 0)
      case None => [Lit(t)]
      case Some(end) => [Lit(t[..start]), Slot(after[..end])] + Parse(after[end + 2..])
  }

  function Spell(piece: Piece): Bytes {
    match piece
    case Lit(text) => text
    case Slot(raw) => [OPEN, OPEN] + raw + [CLOSE, CLOSE]
  }

  function Unparse(pieces: seq<Piece>): Bytes {
    if pieces == [] then [] else Spell(pieces[0]) + Unparse(pieces[1..])
  }

  function Slots(pieces: seq<Piece>): nat {
    if pieces == [] then 0 else (if pieces[0].Slot? then 1 else 0) + Slots(pieces[1..])
  }

  lemma TwoPieces(a: Piece, b: Piece, rest: seq<Piece>)
    ensures Unparse([a, b] + rest) == Spell(a) + Spell(b) + Unparse(rest)
    ensures Slots([a, b] + rest) == (if a.Slot? then 1 else 0) + (if b.Slot? then 1 else 0) + Slots(rest)
  {
    assert ([a, b] + rest)[1..] == [b] + rest;
    assert ([b] + rest)[1..] == rest;
  }

  lemma OnePiece(a: Piece)
    ensures Unparse([a]) == Spell(a) && Slots([a]) == if a.Slot? then 1 else 0
  {
    assert [a][1..] == [];
  }

  lemma AroundPair(s: Bytes, b: Byte, i: nat)
    requires PairAt(s, b, i)
    ensures s == s[..i] + ([b, b] + s[i + 2..])
  {
  }

  lemma Regroup(a: Bytes, o: Bytes, raw: Bytes, c: Bytes, rest: Bytes)
    ensures a + (o + (raw + (c + rest))) == a + (o + raw + c) + rest
  {
  }

  /** A slot's place in a template that has one. */
  lemma AroundSlot(t: Bytes, start: nat, end: nat)
    requires PairAt(t, OPEN, start) && PairAt(t[start + 2..], CLOSE, end)
    ensures t == t[..start] + Spell(Slot(t[start + 2..][..end])) + t[start + 2..][end + 2..]
  {
    var after := t[start + 2..];
    AroundPair(t, OPEN, start);
    AroundPair(after, CLOSE, end);
    Regroup(t[..start], [OPEN, OPEN], after[..end], [CLOSE, CLOSE], after[end + 2..]);
  }

  /** Nothing of the template is lost or moved: the pieces spell it. */
  lemma {:induction false} ParseRoundTrip(t: Bytes)
    ensures Unparse(Parse(t)) == t
    decreases |t|
  {
    match FindPair(t, OPEN, 0)
    case None => OnePiece(Lit(t));
    case Some(start) =>
      var after := t[start + 2..];
      match FindPair(after, CLOSE, 0) {
        case None => OnePiece(Lit(t));
        case Some(end) =>
          ParseRoundTrip(after[end + 2..]);
          TwoPieces(Lit(t[..start]), Slot(after[..end]), Parse(after[end + 2..]));
          AroundSlot(t, start, end);
      }
  }

  // ------------------------------------------------------------ looking up

  /** The segments of a dotted path. */
  function Split(path: Bytes): (segments: seq<Bytes>)
    ensures |segments| > 0
  {
    if path == [] then [[]]
    else
      var n := |path| - 1;
      var init := Split(path[..n]);
      if path[n] == DOT then init + [[]]
      else init[..|init| - 1] + [init[|init| - 1] + [path[n]]]
  }

  function Join(segments: seq<Bytes>): Bytes
    requires |segments| > 0
  {
    var n := |segments| - 1;
    if n == 0 then segments[0] else Join(segments[..n]) + [DOT] + segments[n]
  }

  lemma JoinSnoc(init: seq<Bytes>, last: Bytes)
    requires |init| > 0
    ensures Join(init + [last]) == Join(init) + [DOT] + last
  {
    assert (init + [last])[..|init|] == init;
  }

  lemma JoinLonger(init: seq<Bytes>, last: Bytes, b: Byte)
    ensures Join(init + [last + [b]]) == Join(init + [last]) + [b]
  {
    if init == [] {
      assert init + [last + [b]] == [last + [b]] && init + [last] == [last];
    } else {
      JoinSnoc(init, last);
      JoinSnoc(init, last + [b]);
    }
  }

  /** Joining the segments gives the path back. */
  lemma {:induction false} SplitJoins(path: Bytes)
    ensures Join(Split(path)) == path
  {
    if path != [] {
      var n := |path| - 1;
      var init := Split(path[..n]);
      SplitJoins(path[..n]);
      if path[n] == DOT {
        JoinSnoc(init, []);
      } else {
        JoinLonger(init[..|init| - 1], init[|init| - 1], path[n]);
        assert init == init[..|init| - 1] + [init[|init| - 1]];
      }
    }
  }

  /** Follow object keys; a segment never indexes an array. */
  function Walk(payload: Json, segments: seq<Bytes>): Option<Json> {
    if segments == [] then Some(payload)
    else
      match Walk(payload, segments[..|segments| - 1])
      case Some(Object(members)) =>
        var key := segments[|segments| - 1];
        if key in members then Some(members[key]) else None
      case _ => None
  }

  /** A bare string, so no quotes reach the prompt; anything else as printed. */
  function TextOf(p: Platform, v: Json): Bytes {
    if v.Str? then v.text else p.show(v)
  }

  function Resolved(p: Platform, payload: Json, path: Bytes): Result<Bytes, Failure> {
    match Walk(payload, Split(path))
    case None => Err(Absent(path))
    case Some(Null) => Err(NullAt(path))
    case Some(v) => Ok(Truncated(TextOf(p, v)))
  }

  /** Whatever a path reaches prints as valid UTF-8. */
  ghost predicate Printable(p: Platform, payload: Json) {
    forall segments :: Walk(payload, segments).Some? ==> Valid(TextOf(p, Walk(payload, segments).value))
  }

  method Lookup(p: Platform, payload: Json, path: Bytes) returns (r: Result<Bytes, Failure>)
    requires Printable(p, payload)
    ensures r == Resolved(p, payload, path)
  {
    var cursor := payload;
    var segments := Split(path);
    for i := 0 to |segments|
      invariant Walk(payload, segments[..i]) == Some(cursor)
    {
      assert segments[..i + 1][..i] == segments[..i];
      if !cursor.Object? || segments[i] !in cursor.members {
        WalkStops(payload, segments, i + 1);
        return Err(Absent(path));
      }
      cursor := cursor.members[segments[i]];
    }
    assert segments[..|segments|] == segments;
    if cursor.Null? {
      return Err(NullAt(path));
    }
    var cut, _ := Truncate(TextOf(p, cursor));
    return Ok(cut);
  }

  lemma {:induction false} WalkStops(payload: Json, segments: seq<Bytes>, n: nat)
    requires n <= |segments| && Walk(payload, segments[..n]) == None
    ensures Walk(payload, segments) == None
    decreases |segments|
  {
    if n < |segments| {
      var init := segments[..|segments| - 1];
      assert init[..n] == segments[..n];
      WalkStops(payload, init, n);
    } else {
      assert segments[..n] == segments;
    }
  }

  // ------------------------------------- what a path means, segment by segment

  predicate Dotless(segment: Bytes) {
    DOT !in segment
  }

  lemma {:induction false} SplitDotless(segment: Bytes)
    requires Dotless(segment)
    ensures Split(segment) == [segment]
  {
    if segment != [] {
      var n := |segment| - 1;
      SplitDotless(segment[..n]);
      assert segment[n] in segment && segment == segment[..n] + [segment[n]];
    }
  }

  /** The segments once the path goes on by one byte. */
  function Extended(segments: seq<Bytes>, b: Byte): seq<Bytes>
    requires segments != []
  {
    if b == DOT then segments + [[]] else segments[..|segments| - 1] + [segments[|segments| - 1] + [b]]
  }

  lemma SplitMore(path: Bytes, b: Byte)
    ensures Split(path + [b]) == Extended(Split(path), b)
  {
    assert (path + [b])[..|path|] == path;
  }

  lemma ExtendedBehind(segment: Bytes, segments: seq<Bytes>, b: Byte)
    requires segments != []
    ensures Extended([segment] + segments, b) == [segment] + Extended(segments, b)
  {
    var all, n := [segment] + segments, |segments|;
    assert all[..n] == [segment] + segments[..n - 1] && all[n] == segments[n - 1];
  }

  /** The first segment stands for itself, and the rest of the path is split on its own. */
  lemma {:induction false} SplitFirst(segment: Bytes, path: Bytes)
    requires Dotless(segment)
    ensures Split(segment + [DOT] + path) == [segment] + Split(path)
    decreases |path|
  {
    if path == [] {
      SplitDotless(segment);
      SplitMore(segment, DOT);
      assert segment + [DOT] + path == segment + [DOT];
    } else {
      var init, b := path[..|path| - 1], path[|path| - 1];
      SplitFirst(segment, init);
      SplitOneMore(segment, init, b);
      assert segment + [DOT] + path == (segment + [DOT] + init) + [b] && path == init + [b];
    }
  }

  lemma SplitOneMore(segment: Bytes, path: Bytes, b: Byte)
    requires Split(segment + [DOT] + path) == [segment] + Split(path)
    ensures Split((segment + [DOT] + path) + [b]) == [segment] + Split(path + [b])
  {
    SplitMore(path, b);
    SplitMore(segment + [DOT] + path, b);
    ExtendedBehind(segment, Split(path), b);
  }

  /** Walking on from the member that the first segment names. */
  lemma {:induction false} WalkFirst(members: map<Bytes, Json>, segment: Bytes, segments: seq<Bytes>)
    ensures Walk(Object(members), [segment] + segments)
         == if segment in members then Walk(members[segment], segments) else None
    decreases |segments|
  {
    var all := [segment] + segments;
    assert Walk(Object(members), []) == Some(Object(members));
    if segments == [] {
      assert all[..0] == [];
    } else {
      var init := segments[..|segments| - 1];
      assert all[..|segments|] == [segment] + init;
      WalkFirst(members, segment, init);
    }
  }

  lemma {:induction false} WalkNowhere(payload: Json, segments: seq<Bytes>)
    requires !payload.Object? && segments != []
    ensures Walk(payload, segments) == None
  {
    if |segments| > 1 {
      WalkNowhere(payload, segments[..|segments| - 1]);
    } else {
      assert segments[..0] == [];
    }
  }

  /** A path into anything but an object is absent: lists, numbers and texts are not entered. */
  lemma ResolvedNowhere(p: Platform, payload: Json, path: Bytes)
    requires !payload.Object?
    ensures Resolved(p, payload, path) == Err(Absent(path))
  {
    WalkNowhere(payload, Split(path));
  }

  /** A path of one segment names a member of the payload: one that is not there or null
      is an error naming the path; a text of up to 4096 bytes comes bare, and any other
      value as it prints. */
  lemma ResolvedMember(p: Platform, members: map<Bytes, Json>, segment: Bytes)
    requires Dotless(segment)
    ensures segment !in members ==> Resolved(p, Object(members), segment) == Err(Absent(segment))
    ensures segment in members && members[segment].Null? ==> Resolved(p, Object(members), segment) == Err(NullAt(segment))
    ensures segment in members && members[segment].Str? && |members[segment].text| <= 4096 ==>
              Resolved(p, Object(members), segment) == Ok(members[segment].text)
    ensures segment in members && (members[segment].Object? || members[segment].Opaque?) && |p.show(members[segment])| <= 4096 ==>
              Resolved(p, Object(members), segment) == Ok(p.show(members[segment]))
    ensures segment in members && !members[segment].Null? ==>
              Resolved(p, Object(members), segment) == Ok(Truncated(if members[segment].Str? then members[segment].text else p.show(members[segment])))
  {
    SplitDotless(segment);
    WalkFirst(members, segment, []);
    assert [segment] + [] == [segment];
  }

  /** A longer path goes into the member its first segment names, and comes to what the
      rest of the path comes to there; an error names the whole path. */
  lemma ResolvedInto(p: Platform, members: map<Bytes, Json>, segment: Bytes, path: Bytes)
    requires Dotless(segment)
    ensures
      var full := segment + [DOT] + path;
      Resolved(p, Object(members), full) ==
        if segment !in members then Err(Absent(full))
        else
          match Resolved(p, members[segment], path)
          case Ok(text) => Ok(text)
          case Err(Absent(_)) => Err(Absent(full))
          case Err(NullAt(_)) => Err(NullAt(full))
  {
    SplitFirst(segment, path);
    WalkFirst(members, segment, Split(path));
  }

  // ----------------------------------------------------------- substituting

  function Prefixed(text: Bytes, r: Result<Bytes, Failure>): Result<Bytes, Failure> {
    match r
    case Ok(rest) => Ok(text + rest)
    case Err(e) => Err(e)
  }

  /** Two results in sequence: the first error counts. */
  function Then(a: Result<Bytes, Failure>, b: Result<Bytes, Failure>): Result<Bytes, Failure> {
    if a.Ok? then Prefixed(a.value, b) else a
  }

  function FillPiece(p: Platform, payload: Json, piece: Piece): Result<Bytes, Failure> {
    match piece
    case Lit(text) => Ok(text)
    case Slot(raw) => Resolved(p, payload, p.trim(raw))
  }

  /** The pieces with their slots filled; the first slot that cannot be decides the error. */
  function Assemble(p: Platform, payload: Json, pieces: seq<Piece>): Result<Bytes, Failure> {
    if pieces == [] then Ok([])
    else
      Then(FillPiece(p, payload, pieces[0]), Assemble(p, payload, pieces[1..]))
  }

  lemma AssembleSlot(p: Platform, payload: Json, lit: Bytes, raw: Bytes, rest: seq<Piece>)
    ensures Assemble(p, payload, [Lit(lit), Slot(raw)] + rest)
         == Prefixed(lit, Then(Resolved(p, payload, p.trim(raw)), Assemble(p, payload, rest)))
  {
    var pieces := [Lit(lit), Slot(raw)] + rest;
    assert pieces[1..] == [Slot(raw)] + rest;
    assert pieces[1..][1..] == rest;
  }

  lemma AssembleLit(p: Platform, payload: Json, text: Bytes)
    ensures Assemble(p, payload, [Lit(text)]) == Ok(text)
  {
    assert [Lit(text)][1..] == [];
    assert text + [] == text;
  }

  lemma PrefixedNone(r: Result<Bytes, Failure>)
    ensures Prefixed([], r) == r
  {
    if r.Ok? {
      assert [] + r.value == r.value;
    }
  }

  lemma PrefixedTwice(a: Bytes, b: Bytes, r: Result<Bytes, Failure>)
    ensures Prefixed(a, Prefixed(b, r)) == Prefixed(a + b, r)
  {
    if r.Ok? {
      assert a + (b + r.value) == (a + b) + r.value;
    }
  }

  /** Filling the first slot and going on behind it. */
  lemma OneSlot(p: Platform, payload: Json, out: Bytes, rest: Bytes, start: nat, end: nat)
    requires FindPair(rest, OPEN, 0) == Some(start) && FindPair(rest[start + 2..], CLOSE, 0) == Some(end)
    ensures var found := Resolved(p, payload, p.trim(rest[start + 2..][..end]));
      Prefixed(out, Assemble(p, payload, Parse(rest))) ==
        if found.Err? then found
        else Prefixed(out + rest[..start] + found.value, Assemble(p, payload, Parse(rest[start + 2..][end + 2..])))
  {
    var after := rest[start + 2..];
    var found := Resolved(p, payload, p.trim(after[..end]));
    var later := Assemble(p, payload, Parse(after[end + 2..]));
    AssembleSlot(p, payload, rest[..start], after[..end], Parse(after[end + 2..]));
    if found.Ok? {
      PrefixedTwice(rest[..start], found.value, later);
      PrefixedTwice(out, rest[..start] + found.value, later);
      assert out + (rest[..start] + found.value) == out + rest[..start] + found.value;
    }
  }

  /** One pass: the result is the template's own pieces with each slot's text put in
      place once, so what was substituted is never searched for slots. */
  method Interpolate(p: Platform, template: Bytes, payload: Json) returns (r: Result<Bytes, Failure>)
    requires Printable(p, payload)
    ensures r == Assemble(p, payload, Parse(template))
  {
    var out: Bytes := [];
    var rest := template;
    PrefixedNone(Assemble(p, payload, Parse(template)));
    while true
      invariant Assemble(p, payload, Parse(template)) == Prefixed(out, Assemble(p, payload, Parse(rest)))
      decreases |rest|
    {
      var opening := FindPair(rest, OPEN, 0);
      if opening.None? {
        AssembleLit(p, payload, rest);
        return Ok(out + rest);
      }
      var start := opening.value;
      var after := rest[start + 2..];
      var closing := FindPair(after, CLOSE, 0);
      if closing.None? {
        AssembleLit(p, payload, rest);
        assert out + rest[..start] + rest[start..] == out + rest;
        return Ok(out + rest[..start] + rest[start..]);
      }
      var end := closing.value;
      OneSlot(p, payload, out, rest, start, end);
      var found := Lookup(p, payload, p.trim(after[..end]));
      if found.Err? {
        return Err(found.error);
      }
      out := out + rest[..start] + found.value;
      rest := after[end + 2..];
    }
  }

  // ------------------------------------------------------------- the results

  /** A template without an opening is its own result, whatever the payload. */
  lemma PlainTemplate(p: Platform, payload: Json, t: Bytes)
    requires forall i :: !PairAt(t, OPEN, i)
    ensures Assemble(p, payload, Parse(t)) == Ok(t)
  {
    AssembleLit(p, payload, t);
  }

  /** An opening that is never closed stands as it was written, with all that follows. */
  lemma UnclosedTemplate(p: Platform, payload: Json, t: Bytes, start: nat)
    requires PairAt(t, OPEN, start) && forall i :: 0 <= i < start ==> !PairAt(t, OPEN, i)
    requires forall i :: start + 2 <= i ==> !PairAt(t, CLOSE, i)
    ensures Assemble(p, payload, Parse(t)) == Ok(t)
  {
    var after := t[start + 2..];
    if end :| PairAt(after, CLOSE, end) {
      assert PairAt(t, CLOSE, start + 2 + end);
      assert false;
    }
    AssembleLit(p, payload, t);
  }

  /** A template with a first slot, spelled out. */
  function WithSlot(before: Bytes, raw: Bytes, rest: Bytes): Bytes {
    before + [OPEN, OPEN] + (raw + [CLOSE, CLOSE] + rest)
  }

  lemma SlotCloses(raw: Bytes, rest: Bytes)
    requires forall i :: 0 <= i < |raw| ==> !PairAt(raw + [CLOSE, CLOSE], CLOSE, i)
    ensures FindPair(raw + [CLOSE, CLOSE] + rest, CLOSE, 0) == Some(|raw|)
  {
    var after, own := raw + [CLOSE, CLOSE] + rest, raw + [CLOSE, CLOSE];
    assert PairAt(after, CLOSE, |raw|);
    forall i | 0 <= i < |raw|
      ensures !PairAt(after, CLOSE, i)
    {
      assert own[i] == after[i] && own[i + 1] == after[i + 1];
      assert !PairAt(own, CLOSE, i);
    }
    FirstPair(after, CLOSE, |raw|);
  }

  lemma SlotParses(before: Bytes, raw: Bytes, rest: Bytes)
    requires forall i :: 0 <= i < |before| ==> !PairAt(WithSlot(before, raw, rest), OPEN, i)
    requires forall i :: 0 <= i < |raw| ==> !PairAt(raw + [CLOSE, CLOSE], CLOSE, i)
    ensures Parse(WithSlot(before, raw, rest)) == [Lit(before), Slot(raw)] + Parse(rest)
  {
    var t, after := WithSlot(before, raw, rest), raw + [CLOSE, CLOSE] + rest;
    assert PairAt(t, OPEN, |before|);
    FirstPair(t, OPEN, |before|);
    SlotCloses(raw, rest);
    assert t[..|before|] == before && t[|before| + 2..] == after;
    assert after[..|raw|] == raw && after[|raw| + 2..] == rest;
  }

  /** The text before the first opening stays, what stands between it and the next closing
      is looked up without the white space around it, and the rest is a template of its own. */
  lemma SlotTemplate(p: Platform, payload: Json, before: Bytes, raw: Bytes, rest: Bytes)
    requires forall i :: 0 <= i < |before| ==> !PairAt(WithSlot(before, raw, rest), OPEN, i)
    requires forall i :: 0 <= i < |raw| ==> !PairAt(raw + [CLOSE, CLOSE], CLOSE, i)
    ensures
      var found := Resolved(p, payload, p.trim(raw));
      var later := Assemble(p, payload, Parse(rest));
      Assemble(p, payload, Parse(WithSlot(before, raw, rest))) ==
        if found.Err? then found else if later.Err? then later else Ok(before + (found.value + later.value))
  {
    SlotParses(before, raw, rest);
    AssembleSlot(p, payload, before, raw, Parse(rest));
  }

  lemma FirstPair(s: Bytes, b: Byte, at: nat)
    requires PairAt(s, b, at) && forall i :: 0 <= i < at ==> !PairAt(s, b, i)
    ensures FindPair(s, b, 0) == Some(at)
  {
  }

  lemma ResolvedFits(p: Platform, payload: Json, path: Bytes)
    requires Printable(p, payload) && Resolved(p, payload, path).Ok?
    ensures |Resolved(p, payload, path).value| <= 4111 && Valid(Resolved(p, payload, path).value)
  {
    TruncatedIsValid(TextOf(p, Walk(payload, Split(path)).value));
  }

  /** The pieces fill to at most their own length and 4111 bytes a slot. */
  lemma {:induction false} AssembledFits(p: Platform, payload: Json, pieces: seq<Piece>)
    requires Printable(p, payload) && Assemble(p, payload, pieces).Ok?
    ensures |Assemble(p, payload, pieces).value| <= |Unparse(pieces)| + 4111 * Slots(pieces)
  {
    if pieces != [] {
      AssembledFits(p, payload, pieces[1..]);
      if pieces[0].Slot? {
        ResolvedFits(p, payload, p.trim(pieces[0].raw));
      }
    }
  }

  /** Output is bounded by the template and 4111 bytes a placeholder. */
  lemma OutputIsBounded(p: Platform, payload: Json, t: Bytes)
    requires Printable(p, payload) && Assemble(p, payload, Parse(t)).Ok?
    ensures |Assemble(p, payload, Parse(t)).value| <= |t| + 4111 * Slots(Parse(t))
  {
    AssembledFits(p, payload, Parse(t));
    ParseRoundTrip(t);
  }

  lemma SkipPair(s: Bytes, i: nat, b: Byte)
    requires Valid(s) && PairAt(s, b, i) && b <= 0x7F
    ensures Valid(s[i + 2..])
  {
    CutAtBoundary(s, i);
    var rest := s[i..];
    assert FrontLength(rest) == 1 && FrontLength(rest[1..]) == 1;
    assert rest[1..][1..] == s[i + 2..];
  }

  ghost predicate LitsValid(pieces: seq<Piece>) {
    forall piece :: piece in pieces && piece.Lit? ==> Valid(piece.text)
  }

  /** What lies before and after a slot of a valid template is valid. */
  lemma AroundSlotValid(t: Bytes, start: nat, end: nat)
    requires Valid(t) && PairAt(t, OPEN, start) && PairAt(t[start + 2..], CLOSE, end)
    ensures Valid(t[..start]) && Valid(t[start + 2..][end + 2..])
  {
    CutAtBoundary(t, start);
    SkipPair(t, start, OPEN);
    SkipPair(t[start + 2..], end, CLOSE);
  }

  lemma LitsValidMore(lit: Bytes, raw: Bytes, rest: seq<Piece>)
    requires Valid(lit) && LitsValid(rest)
    ensures LitsValid([Lit(lit), Slot(raw)] + rest)
  {
  }

  lemma ParseSlot(t: Bytes, start: nat, end: nat)
    requires FindPair(t, OPEN, 0) == Some(start) && FindPair(t[start + 2..], CLOSE, 0) == Some(end)
    ensures Parse(t) == [Lit(t[..start]), Slot(t[start + 2..][..end])] + Parse(t[start + 2..][end + 2..])
  {
  }

  /** The literal pieces of a valid template are valid: no cut falls inside a character. */
  lemma {:induction false} PiecesValid(t: Bytes)
    requires Valid(t)
    ensures LitsValid(Parse(t))
    decreases |t|
  {
    match FindPair(t, OPEN, 0)
    case None =>
    case Some(start) =>
      var after := t[start + 2..];
      match FindPair(after, CLOSE, 0) {
        case None =>
        case Some(end) =>
          AroundSlotValid(t, start, end);
          ParseSlot(t, start, end);
          PiecesValid(after[end + 2..]);
          LitsValidMore(t[..start], after[..end], Parse(after[end + 2..]));
      }
  }

  lemma {:induction false} AssembledValid(p: Platform, payload: Json, pieces: seq<Piece>)
    requires Printable(p, payload) && Assemble(p, payload, pieces).Ok?
    requires LitsValid(pieces)
    ensures Valid(Assemble(p, payload, pieces).value)
  {
    if pieces != [] {
      AssembledValid(p, payload, pieces[1..]);
      var rest := Assemble(p, payload, pieces[1..]).value;
      if pieces[0].Slot? {
        ResolvedFits(p, payload, p.trim(pieces[0].raw));
      }
      ValidConcat(FillPiece(p, payload, pieces[0]).value, rest);
    }
  }

  /** The output is valid UTF-8 whenever the template and the payload's texts are. */
  lemma OutputIsValid(p: Platform, payload: Json, t: Bytes)
    requires Valid(t) && Printable(p, payload) && Assemble(p, payload, Parse(t)).Ok?
    ensures Valid(Assemble(p, payload, Parse(t)).value)
  {
    PiecesValid(t);
    AssembledValid(p, payload, Parse(t));
  }

  /** Piece `i` fails with `e`, and none before it fails. */
  ghost predicate FailsAt(p: Platform, payload: Json, pieces: seq<Piece>, i: nat, e: Failure) {
    && i < |pieces| && FillPiece(p, payload, pieces[i]) == Err(e)
    && forall j :: 0 <= j < i ==> FillPiece(p, payload, pieces[j]).Ok?
  }

  lemma FailsLater(p: Platform, payload: Json, pieces: seq<Piece>, i: nat, e: Failure)
    requires pieces != [] && FillPiece(p, payload, pieces[0]).Ok?
    ensures FailsAt(p, payload, pieces[1..], i, e) <==> FailsAt(p, payload, pieces, i + 1, e)
  {
    assert forall j :: 1 <= j < |pieces| ==> pieces[j] == pieces[1..][j - 1];
    assert forall j :: 0 <= j < |pieces| - 1 ==> pieces[1..][j] == pieces[j + 1];
  }

  /** It fails with exactly the error of the first slot whose path is absent or null. */
  lemma {:induction false} FailsIff(p: Platform, payload: Json, pieces: seq<Piece>, e: Failure)
    ensures Assemble(p, payload, pieces) == Err(e) <==> exists i: nat :: FailsAt(p, payload, pieces, i, e)
  {
    if pieces != [] {
      FailsIff(p, payload, pieces[1..], e);
      var first := FillPiece(p, payload, pieces[0]);
      if first.Err? {
        assert first == Err(e) ==> FailsAt(p, payload, pieces, 0, e);
      } else {
        if i: nat :| FailsAt(p, payload, pieces[1..], i, e) {
          FailsLater(p, payload, pieces, i, e);
        }
        if i: nat :| FailsAt(p, payload, pieces, i, e) {
          FailsLater(p, payload, pieces, i - 1, e);
        }
      }
    }
  }
}
