/** The position comments themselves: av3 for tranches, avz for zone legs, avm for manual legs. */
module PositionComments {
  import opened Common
  import opened Sums
  import opened CommentCodec

  /** What a ladder comment says, before it is checked. */
  datatype Fields = Fields(
    candidate: string, group: string, index: int, initial: int,
    slices: seq<int>, targets: seq<int>, ordinals: seq<int>, barTs: int)

  /** What a restarted engine makes of a comment. An overflow is an exception nobody catches. */
  datatype Parsed =
    | Rebuilt(candidate: string, group: string, tranche: int, zoneLeg: int, trancheCount: int,
              initial: int, slices: seq<int>, targets: seq<int>, ordinals: seq<int>, next: int,
              groupOpenedAt: int, lastBarTs: int)
    | NotOurs
    | Escapes

  const MAX_COMMENT := 100
  const TOKEN := 10

  function Token(id: string): string { if |id| <= TOKEN then id else id[..TOKEN] }

  predicate NonDecreasing(v: seq<int>) { forall i, j | 0 <= i < j < |v| :: v[i] <= v[j] }

  predicate ValidLadder(slices: seq<int>, targets: seq<int>, ordinals: seq<int>) {
    && slices != [] && |slices| == |targets| == |ordinals|
    && Positive(slices) && Positive(targets) && Positive(ordinals) && NonDecreasing(ordinals)
  }

  // ----- the next target ------------------------------------------------------------------

  function NextFrom(slices: seq<int>, closed: int, i: nat): (n: nat)
    requires i <= |slices|
    ensures i <= n <= |slices|
    decreases |slices| - i
  {
    if i == |slices| || closed < Prefix(slices, i + 1) then i else NextFrom(slices, closed, i + 1)
  }

  method NextTarget(slices: seq<int>, closed: int) returns (next: nat)
    ensures next == NextFrom(slices, closed, 0)
  {
    var cumulative := 0;
    next := 0;
    while next < |slices|
      invariant 0 <= next <= |slices| && cumulative == Prefix(slices, next)
      invariant NextFrom(slices, closed, 0) == NextFrom(slices, closed, next)
    {
      cumulative := cumulative + slices[next];
      if closed < cumulative {
        break;
      }
      next := next + 1;
    }
  }

  lemma {:induction false} NextBounds(slices: seq<int>, closed: int, i: nat)
    requires i <= |slices| && Prefix(slices, i) <= closed
    ensures var n := NextFrom(slices, closed, i);
      Prefix(slices, n) <= closed && (n < |slices| ==> closed < Prefix(slices, n + 1))
    decreases |slices| - i
  {
    if i < |slices| && closed >= Prefix(slices, i + 1) { NextBounds(slices, closed, i + 1); }
  }

  lemma {:induction false} PrefixGrows(slices: seq<int>, j: nat, k: nat)
    requires j < k <= |slices| && Positive(slices)
    ensures Prefix(slices, j) < Prefix(slices, k)
  {
    if j < k - 1 { PrefixGrows(slices, j, k - 1); }
  }

  /** The rebuilt next target is k exactly when the first k slices are closed and the next one
      is not. */
  lemma NextIsFirstOpen(slices: seq<int>, closed: int, k: nat)
    requires Positive(slices) && closed >= 0 && k <= |slices|
    ensures NextFrom(slices, closed, 0) == k <==>
      Prefix(slices, k) <= closed && (k < |slices| ==> closed < Prefix(slices, k + 1))
    ensures closed == Prefix(slices, k) ==> NextFrom(slices, closed, 0) == k
  {
    var n := NextFrom(slices, closed, 0);
    NextBounds(slices, closed, 0);
    if k < |slices| { PrefixGrows(slices, k, k + 1); }
    if n < k { if n + 1 < k { PrefixGrows(slices, n + 1, k); } }
    if k < n { if k + 1 < n { PrefixGrows(slices, k + 1, n); } }
  }

  // ----- tranches and zone legs -----------------------------------------------------------

  /** The numbers and lists of a ladder as they are written. */
  datatype Texts = Texts(index: string, initial: string, slices: string, targets: string, ordinals: string,
                         barTs: string)

  function TextsOf(f: Fields): Texts {
    Texts(Format(f.index), Format(f.initial), ListText(f.slices), ListText(f.targets), ListText(f.ordinals),
          Format(f.barTs))
  }

  function Parts(tag: string, candidate: string, group: string, t: Texts): seq<string> {
    [tag, candidate, group, t.index, t.initial, t.slices, t.targets, t.ordinals, t.barTs]
  }

  function LadderParts(tag: string, f: Fields): seq<string> {
    Parts(tag, Token(f.candidate), Token(f.group), TextsOf(f))
  }

  lemma LadderText(tag: string, f: Fields)
    ensures Join(LadderParts(tag, f), '|')
         == tag + "|" + Token(f.candidate)
            + "|" + (Token(f.group) + "|" + Format(f.index)
            + "|" + (Format(f.initial) + "|" + ListText(f.slices)
            + "|" + (ListText(f.targets) + "|" + ListText(f.ordinals) + "|" + Format(f.barTs))))
  {
    var t := TextsOf(f);
    var tail := [t.targets, t.ordinals] + [t.barTs];
    var middle := [t.initial, t.slices] + tail;
    var rest := [Token(f.group), t.index] + middle;
    JoinTwo(t.targets, t.ordinals, [t.barTs]);
    JoinTwo(t.initial, t.slices, tail);
    JoinTwo(Token(f.group), t.index, middle);
    JoinTwo(tag, Token(f.candidate), rest);
    assert Join([t.barTs], '|') == t.barTs;
    assert LadderParts(tag, f) == [tag, Token(f.candidate)] + rest;
  }

  /** A comment too long for the broker is refused. */
  function Build(tag: string, f: Fields): Option<string> {
    var comment := Join(LadderParts(tag, f), '|');
    if |comment| > MAX_COMMENT then None else Some(comment)
  }

  /** What is written, part by part, and only if it fits into a hundred characters. */
  lemma LadderWritten(tag: string, f: Fields)
    ensures var text := tag + "|" + Token(f.candidate)
                        + "|" + (Token(f.group) + "|" + Format(f.index)
                        + "|" + (Format(f.initial) + "|" + ListText(f.slices)
                        + "|" + (ListText(f.targets) + "|" + ListText(f.ordinals) + "|" + Format(f.barTs))));
      Build(tag, f) == if |text| <= 100 then Some(text) else None
    ensures |f.candidate| <= 10 ==> Token(f.candidate) == f.candidate
    ensures |f.candidate| > 10 ==> Token(f.candidate) == f.candidate[..10]
  {
    LadderText(tag, f);
  }

  function ReadLadder(parts: seq<string>): Read<Fields>
    requires |parts| == 9
  {
    var initial :- ReadNumber(parts[4], LONG_MIN, LONG_MAX);
    var slices :- ReadList(parts[5], LONG_MIN, LONG_MAX);
    var targets :- ReadList(parts[6], INT_MIN, INT_MAX);
    var ordinals :- ReadList(parts[7], INT_MIN, INT_MAX);
    var index :- ReadNumber(parts[3], INT_MIN, INT_MAX);
    var barTs :- ReadNumber(parts[8], LONG_MIN, LONG_MAX);
    Ok(Fields(parts[1], parts[2], index, initial, slices, targets, ordinals, barTs))
  }

  function OneTo(n: nat): (v: seq<int>)
    ensures |v| == n && forall i | 0 <= i < n :: v[i] == i + 1
  {
    seq(n, i => i + 1)
  }

  /** Comments older executors wrote, without group, tranche and bar: av1 also without ordinals. */
  function ReadOld(parts: seq<string>): Read<Fields>
    requires |parts| == 5 || |parts| == 6
  {
    var initial :- ReadNumber(parts[2], LONG_MIN, LONG_MAX);
    var slices :- ReadList(parts[3], LONG_MIN, LONG_MAX);
    var targets :- ReadList(parts[4], INT_MIN, INT_MAX);
    var ordinals :- if |parts| == 5 then Ok(OneTo(|targets|)) else ReadList(parts[5], INT_MIN, INT_MAX);
    Ok(Fields(parts[1], Token(parts[1]), 1, initial, slices, targets, ordinals, 0))
  }

  function Rebuild(read: Read<Fields>, zone: bool, volume: int): Parsed {
    match read
    case BadFormat => NotOurs
    case Overflow => Escapes
    case Ok(f) =>
      if !ValidLadder(f.slices, f.targets, f.ordinals) then NotOurs else
      var tranche := if zone then 1 else f.index;
      Rebuilt(f.candidate, f.group, tranche, if zone then f.index else 0, tranche,
              f.initial, f.slices, f.targets, f.ordinals,
              NextFrom(f.slices, Max(0, f.initial - volume), 0),
              if tranche == 1 then f.barTs else 0, f.barTs)
  }

  function ParseComment(comment: string, volume: int): Parsed {
    var parts := Split(comment, '|');
    if parts[0] == "av1" && |parts| == 5 then Rebuild(ReadOld(parts), false, volume)
    else if parts[0] == "av2" && |parts| == 6 then Rebuild(ReadOld(parts), false, volume)
    else if (parts[0] == "av3" || parts[0] == "avz") && |parts| == 9 then
      Rebuild(ReadLadder(parts), parts[0] == "avz", volume)
    else NotOurs
  }

  /** The numbers fit the widths the engine keeps them in. */
  predicate InWidth(f: Fields) {
    && LONG_MIN <= f.initial <= LONG_MAX && INT_MIN <= f.index <= INT_MAX && LONG_MIN <= f.barTs <= LONG_MAX
    && Within(f.slices, LONG_MIN, LONG_MAX) && Within(f.targets, INT_MIN, INT_MAX)
        && Within(f.ordinals, INT_MIN, INT_MAX)
  }

  predicate PlainTokens(f: Fields) { '|' !in Token(f.candidate) && '|' !in Token(f.group) }

  predicate ValidFields(f: Fields) { ValidLadder(f.slices, f.targets, f.ordinals) }

  lemma PlainParts(tag: string, f: Fields)
    requires PlainTokens(f) && '|' !in tag
    ensures forall p | p in LadderParts(tag, f) :: '|' !in p
  {
    FormatIsPlain(f.index);
    FormatIsPlain(f.initial);
    FormatIsPlain(f.barTs);
    ListIsPlain(f.slices);
    ListIsPlain(f.targets);
    ListIsPlain(f.ordinals);
  }

  function Named(f: Fields): Fields { f.(candidate := Token(f.candidate), group := Token(f.group)) }

  function ListRead(v: seq<int>): Read<seq<int>> { if v == [] then BadFormat else Ok(v) }

  /** The texts read as the fields; an empty list cannot be read. */
  predicate ReadAs(t: Texts, f: Fields) {
    && ReadNumber(t.initial, LONG_MIN, LONG_MAX) == Ok(f.initial)
    && ReadNumber(t.index, INT_MIN, INT_MAX) == Ok(f.index)
    && ReadNumber(t.barTs, LONG_MIN, LONG_MAX) == Ok(f.barTs)
    && ReadList(t.slices, LONG_MIN, LONG_MAX) == ListRead(f.slices)
    && ReadList(t.targets, INT_MIN, INT_MAX) == ListRead(f.targets)
    && ReadList(t.ordinals, INT_MIN, INT_MAX) == ListRead(f.ordinals)
  }

  lemma TextsReadBack(f: Fields)
    requires InWidth(f)
    ensures ReadAs(TextsOf(f), f)
  {
    ReadFormat(f.initial, LONG_MIN, LONG_MAX);
    ReadFormat(f.index, INT_MIN, INT_MAX);
    ReadFormat(f.barTs, LONG_MIN, LONG_MAX);
    ReadListText(f.slices, LONG_MIN, LONG_MAX);
    ReadListText(f.targets, INT_MIN, INT_MAX);
    ReadListText(f.ordinals, INT_MIN, INT_MAX);
  }

  lemma ReadParts(tag: string, candidate: string, group: string, t: Texts, f: Fields)
    requires ReadAs(t, f)
    ensures ReadLadder(Parts(tag, candidate, group, t))
         == if f.slices == [] || f.targets == [] || f.ordinals == [] then BadFormat
            else Ok(f.(candidate := candidate, group := group))
  {
  }

  lemma ReadBuilt(tag: string, f: Fields)
    requires InWidth(f)
    ensures ReadLadder(LadderParts(tag, f))
         == if f.slices == [] || f.targets == [] || f.ordinals == [] then BadFormat else Ok(Named(f))
  {
    TextsReadBack(f);
    ReadParts(tag, Token(f.candidate), Token(f.group), TextsOf(f), f);
  }

  /** Whatever was written for a tranche or a zone leg is read back exactly when its ladder is
      valid and neither token holds the separator; otherwise it is not recognised at all. */
  lemma RoundTrip(tag: string, f: Fields, volume: int)
    requires (tag == "av3" || tag == "avz") && InWidth(f) && Build(tag, f).Some?
    ensures ParseComment(Build(tag, f).value, volume)
         == if PlainTokens(f) && ValidFields(f)
            then Rebuild(Ok(Named(f)), tag == "avz", volume)
            else NotOurs
  {
    var parts := LadderParts(tag, f);
    FirstPartKept(parts);
    if PlainTokens(f) {
      PlainParts(tag, f);
      SplitJoin(parts, '|');
      ReadBuilt(tag, f);
    } else {
      assert Token(f.candidate) == parts[1] && Token(f.group) == parts[2];
      JoinedCount(parts, '|');
    }
  }

  /** The tag survives joining and splitting whatever follows it. */
  lemma FirstPartKept(parts: seq<string>)
    requires |parts| > 1 && '|' !in parts[0]
    ensures Split(Join(parts, '|'), '|')[0] == parts[0]
  {
    SplitPlain(parts[0], '|');
    SplitFirst(parts[0], Join(parts[1..], '|'), '|');
  }

  /** The rebuilt position carries the fields on and has k as its next target. A comment holds the first
      ten characters of its tokens; a zone leg is always in the first tranche and keeps its number, and
      a group opened with its first tranche. */
  predicate GoesOn(p: Parsed, tag: string, f: Fields, k: nat) {
    && p.Rebuilt? && p.next == k && p.initial == f.initial && p.lastBarTs == f.barTs
    && p.slices == f.slices && p.targets == f.targets && p.ordinals == f.ordinals
    && (if |f.candidate| <= 10 then p.candidate == f.candidate else p.candidate == f.candidate[..10])
    && (if |f.group| <= 10 then p.group == f.group else p.group == f.group[..10])
    && (tag == "avz" ==> p.tranche == 1 && p.zoneLeg == f.index)
    && (tag == "av3" ==> p.tranche == f.index && p.zoneLeg == 0)
    && p.trancheCount == p.tranche && p.groupOpenedAt == (if p.tranche == 1 then f.barTs else 0)
  }

  lemma NamedRebuild(tag: string, f: Fields, k: nat)
    requires tag == "av3" || tag == "avz"
    requires ValidFields(f) && k <= |f.slices| && NextFrom(f.slices, Prefix(f.slices, k), 0) == k
        && 0 <= Prefix(f.slices, k)
    ensures GoesOn(Rebuild(Ok(Named(f)), tag == "avz", f.initial - Prefix(f.slices, k)), tag, f, k)
  {
    assert "av3"[2] != "avz"[2];
  }

  lemma RebuiltGoesOn(tag: string, f: Fields, k: nat)
    requires tag == "av3" || tag == "avz"
    requires ValidFields(f) && k <= |f.slices|
    ensures GoesOn(Rebuild(Ok(Named(f)), tag == "avz", f.initial - Prefix(f.slices, k)), tag, f, k)
  {
    if k > 0 { PrefixGrows(f.slices, 0, k); }
    NextIsFirstOpen(f.slices, Prefix(f.slices, k), k);
    NamedRebuild(tag, f, k);
  }

  /** A comment the broker accepts, with tokens and a ladder that can be read back. */
  predicate Written(tag: string, f: Fields, comment: string) {
    (tag == "av3" || tag == "avz") && InWidth(f) && PlainTokens(f) && ValidFields(f) && Build(tag, f) == Some(comment)
  }

  lemma ReadBack(tag: string, f: Fields, volume: int, comment: string)
    requires Written(tag, f, comment)
    ensures ParseComment(comment, volume) == Rebuild(Ok(Named(f)), tag == "avz", volume)
  {
    RoundTrip(tag, f, volume);
  }

  /** After the first k slices are closed a restarted engine goes on with target k. */
  lemma RestartGoesOn(tag: string, f: Fields, k: nat, comment: string, volume: int) returns (p: Parsed)
    requires Written(tag, f, comment) && k <= |f.slices| && volume == f.initial - Prefix(f.slices, k)
    ensures ParseComment(comment, volume) == p && GoesOn(p, tag, f, k)
  {
    p := Rebuild(Ok(Named(f)), tag == "avz", volume);
    assert GoesOn(p, tag, f, k) by { RebuiltGoesOn(tag, f, k); }
    ReadBack(tag, f, volume, comment);
  }

  /** Whatever a comment says, what is rebuilt from it has a ladder of positive slices under positive targets
      with numbers in order, and a manual leg is one of as many as there are. */
  lemma RebuiltIsSane(comment: string, volume: int)
    ensures forall p | p == ParseComment(comment, volume) || p == ParseManual(comment) :: p.Rebuilt? ==>
      && |p.slices| == |p.targets| == |p.ordinals| > 0
      && (forall i | 0 <= i < |p.slices| :: p.slices[i] > 0 && p.targets[i] > 0 && p.ordinals[i] > 0)
      && (forall i, j | 0 <= i < j < |p.ordinals| :: p.ordinals[i] <= p.ordinals[j])
    ensures ParseManual(comment).Rebuilt? ==> 1 <= ParseManual(comment).tranche <= ParseManual(comment).trancheCount
  {
  }

  /** A number too wide for its field is not an unreadable comment but an exception nobody catches. */
  lemma TooWideEscapes(tag: string, f: Fields, comment: string, volume: int)
    requires (tag == "av3" || tag == "avz") && PlainTokens(f) && Build(tag, f) == Some(comment)
    requires f.initial < LONG_MIN || f.initial > LONG_MAX
    ensures ParseComment(comment, volume) == Escapes
  {
    PlainParts(tag, f);
    SplitJoin(LadderParts(tag, f), '|');
    ReadTooWide(tag, f);
    CurrentTag(tag, comment, LadderParts(tag, f), volume);
  }

  lemma ReadTooWide(tag: string, f: Fields)
    requires f.initial < LONG_MIN || f.initial > LONG_MAX
    ensures ReadLadder(LadderParts(tag, f)) == Overflow
  {
    ReadFormat(f.initial, LONG_MIN, LONG_MAX);
    assert LadderParts(tag, f)[4] == Format(f.initial);
  }

  lemma CurrentTag(tag: string, comment: string, parts: seq<string>, volume: int)
    requires (tag == "av3" || tag == "avz") && Split(comment, '|') == parts && |parts| == 9 && parts[0] == tag
    ensures ParseComment(comment, volume) == Rebuild(ReadLadder(parts), tag == "avz", volume)
  {
    assert "av3"[2] == '3' && "avz"[2] == 'z' && "av1"[2] == '1' && "av2"[2] == '2';
  }

  /** What a rebuilt position would write about itself. */
  function Rewritten(p: Parsed, tag: string): Fields
    requires p.Rebuilt?
  {
    Fields(p.candidate, p.group, if tag == "avz" then p.zoneLeg else p.tranche, p.initial, p.slices, p.targets,
           p.ordinals, p.lastBarTs)
  }

  /** Whatever is left of its volume, a rebuilt position writes the comment it was rebuilt from. */
  lemma RewritesItsComment(tag: string, f: Fields, volume: int, comment: string)
    requires Written(tag, f, comment)
    ensures var p := ParseComment(comment, volume); p.Rebuilt? && Build(tag, Rewritten(p, tag)) == Some(comment)
  {
    ReadBack(tag, f, volume, comment);
    var p := Rebuild(Ok(Named(f)), tag == "avz", volume);
    SameFields(tag, f, p, volume);
    ShortTokens(f);
    assert LadderParts(tag, Named(f)) == LadderParts(tag, f);
  }

  lemma SameFields(tag: string, f: Fields, p: Parsed, volume: int)
    requires ValidFields(f) && p == Rebuild(Ok(Named(f)), tag == "avz", volume)
    ensures p.Rebuilt? && Rewritten(p, tag) == Named(f)
  {
  }

  lemma ShortTokens(f: Fields)
    ensures Token(Token(f.candidate)) == Token(f.candidate) && Token(Token(f.group)) == Token(f.group)
    ensures TextsOf(Named(f)) == TextsOf(f)
  {
  }

  // ----- older comments ---------------------------------------------------------------------

  /** What older executors wrote: av1 without target numbers. */
  function OldParts(tag: string, f: Fields): seq<string> {
    [tag, f.candidate, Format(f.initial), ListText(f.slices), ListText(f.targets)]
    + if tag == "av1" then [] else [ListText(f.ordinals)]
  }

  /** An older comment is read as a first tranche, its group named after its candidate, opened at no known
      time, and its targets numbered from one if it has no numbers. */
  lemma OldCommentsRead(tag: string, f: Fields, volume: int)
    requires (tag == "av1" || tag == "av2") && InWidth(f) && '|' !in f.candidate
    requires ValidLadder(f.slices, f.targets, f.ordinals)
    requires tag == "av1" ==> forall i | 0 <= i < |f.ordinals| :: f.ordinals[i] == i + 1
    ensures ParseComment(Join(OldParts(tag, f), '|'), volume)
         == Rebuilt(f.candidate, if |f.candidate| <= 10 then f.candidate else f.candidate[..10], 1, 0, 1,
                    f.initial, f.slices, f.targets, f.ordinals,
                    NextFrom(f.slices, Max(0, f.initial - volume), 0), 0, 0)
  {
    PlainOldParts(tag, f);
    SplitJoin(OldParts(tag, f), '|');
    assert tag == "av1" ==> f.ordinals == OneTo(|f.targets|);
    OldRead(tag, f);
    OldTag(tag, f, volume);
  }

  lemma OldRead(tag: string, f: Fields)
    requires (tag == "av1" || tag == "av2") && InWidth(f) && f.slices != [] && f.targets != [] && f.ordinals != []
    requires tag == "av1" ==> f.ordinals == OneTo(|f.targets|)
    ensures ReadOld(OldParts(tag, f)) == Ok(Bare(f))
  {
    var t := TextsOf(f);
    TextsReadBack(f);
    if tag == "av1" {
      assert OldParts(tag, f) == ["av1", f.candidate, t.initial, t.slices, t.targets];
      ReadAv1(f.candidate, t, f);
    } else {
      assert OldParts(tag, f) == ["av2", f.candidate, t.initial, t.slices, t.targets, t.ordinals];
      ReadAv2(f.candidate, t, f);
    }
  }

  /** A ladder without group, tranche and bar. */
  function Bare(f: Fields): Fields { f.(group := Token(f.candidate), index := 1, barTs := 0) }

  lemma OldTag(tag: string, f: Fields, volume: int)
    requires tag == "av1" || tag == "av2"
    requires Split(Join(OldParts(tag, f), '|'), '|') == OldParts(tag, f) && ReadOld(OldParts(tag, f)) == Ok(Bare(f))
    ensures ParseComment(Join(OldParts(tag, f), '|'), volume) == Rebuild(Ok(Bare(f)), false, volume)
  {
    assert "av1"[2] != "av2"[2];
  }

  lemma PlainOldParts(tag: string, f: Fields)
    requires (tag == "av1" || tag == "av2") && '|' !in f.candidate
    ensures forall p | p in OldParts(tag, f) :: '|' !in p
  {
    FormatIsPlain(f.initial);
    ListIsPlain(f.slices);
    ListIsPlain(f.targets);
    ListIsPlain(f.ordinals);
  }

  lemma ReadAv1(candidate: string, t: Texts, f: Fields)
    requires ReadAs(t, f) && f.slices != [] && f.targets != [] && f.ordinals == OneTo(|f.targets|)
    ensures ReadOld(["av1", candidate, t.initial, t.slices, t.targets])
         == Ok(Bare(f.(candidate := candidate)))
  {
  }

  lemma ReadAv2(candidate: string, t: Texts, f: Fields)
    requires ReadAs(t, f) && f.slices != [] && f.targets != [] && f.ordinals != []
    ensures ReadOld(["av2", candidate, t.initial, t.slices, t.targets, t.ordinals])
         == Ok(Bare(f.(candidate := candidate)))
  {
  }

  // ----- manual legs ------------------------------------------------------------------------

  /** `fields.index` is the leg's number. */
  datatype Manual = Manual(fields: Fields, legCount: int, expiresAt: int)

  function ManualBase(m: Manual): seq<string> {
    ManualTexts(Token(m.fields.candidate), Token(m.fields.group), TextsOf(m.fields), Format(m.expiresAt))
  }

  function ManualTexts(candidate: string, group: string, t: Texts, expiresAt: string): seq<string> {
    ["avm", candidate, group, t.initial, t.slices, t.targets, t.ordinals, t.barTs, expiresAt]
  }

  function ManualParts(m: Manual): seq<string> { ManualBase(m) + [TextsOf(m.fields).index, Format(m.legCount)] }

  /** The leg's number and the number of legs are dropped when they do not fit. */
  function BuildManual(m: Manual): Option<string> {
    var full, base := Join(ManualParts(m), '|'), Join(ManualBase(m), '|');
    if |full| <= MAX_COMMENT then Some(full) else if |base| <= MAX_COMMENT then Some(base) else None
  }

  /** The text of a manual leg before its leg numbers. */
  lemma ManualText(m: Manual)
    ensures Join(ManualBase(m), '|')
         == "avm" + "|" + Token(m.fields.candidate)
            + "|" + (Token(m.fields.group) + "|" + Format(m.fields.initial)
            + "|" + (ListText(m.fields.slices) + "|" + ListText(m.fields.targets)
            + "|" + (ListText(m.fields.ordinals) + "|" + Format(m.fields.barTs) + "|" + Format(m.expiresAt))))
  {
    var t := TextsOf(m.fields);
    var tail := [t.ordinals, t.barTs] + [Format(m.expiresAt)];
    var third := [t.slices, t.targets] + tail;
    var second := [Token(m.fields.group), t.initial] + third;
    JoinTwo(t.ordinals, t.barTs, [Format(m.expiresAt)]);
    JoinTwo(t.slices, t.targets, tail);
    JoinTwo(Token(m.fields.group), t.initial, third);
    JoinTwo("avm", Token(m.fields.candidate), second);
    assert Join([Format(m.expiresAt)], '|') == Format(m.expiresAt);
    assert ManualBase(m) == ["avm", Token(m.fields.candidate)] + second;
  }

  lemma LegText(m: Manual)
    ensures Join(ManualParts(m), '|')
         == Join(ManualBase(m), '|') + "|" + Format(m.fields.index) + "|" + Format(m.legCount)
  {
    var base, index := ManualBase(m), TextsOf(m.fields).index;
    JoinLast(base, index);
    JoinLast(base + [index], Format(m.legCount));
    assert ManualParts(m) == base + [index] + [Format(m.legCount)];
  }

  lemma {:induction false} JoinLast(parts: seq<string>, last: string)
    requires parts != []
    ensures Join(parts + [last], '|') == Join(parts, '|') + "|" + last
  {
    if |parts| == 1 {
      JoinCons(parts[0], [last]);
      assert parts + [last] == [parts[0]] + [last];
      assert Join([last], '|') == last && Join(parts, '|') == parts[0];
    } else {
      JoinLast(parts[1..], last);
      assert parts + [last] == [parts[0]] + (parts[1..] + [last]) && parts == [parts[0]] + parts[1..];
      JoinCons(parts[0], parts[1..] + [last]);
      JoinCons(parts[0], parts[1..]);
    }
  }

  /** What is written for a manual leg: all of it if that fits into a hundred characters, or without its
      leg number and the number of legs if only that does. */
  lemma ManualWritten(m: Manual)
    ensures var base := "avm" + "|" + Token(m.fields.candidate)
                        + "|" + (Token(m.fields.group) + "|" + Format(m.fields.initial)
                        + "|" + (ListText(m.fields.slices) + "|" + ListText(m.fields.targets)
                        + "|" + (ListText(m.fields.ordinals) + "|" + Format(m.fields.barTs)
                                 + "|" + Format(m.expiresAt))));
      var full := base + "|" + Format(m.fields.index) + "|" + Format(m.legCount);
      BuildManual(m) == if |full| <= 100 then Some(full) else if |base| <= 100 then Some(base) else None
  {
    ManualText(m);
    LegText(m);
  }

  predicate LegsFit(m: Manual) { |Join(ManualParts(m), '|')| <= MAX_COMMENT }

  function ReadManual(parts: seq<string>): Read<Manual>
    requires |parts| == 9 || |parts| == 11
  {
    var initial :- ReadNumber(parts[3], LONG_MIN, LONG_MAX);
    var slices :- ReadList(parts[4], LONG_MIN, LONG_MAX);
    var targets :- ReadList(parts[5], INT_MIN, INT_MAX);
    var ordinals :- ReadList(parts[6], INT_MIN, INT_MAX);
    var barTs :- ReadNumber(parts[7], LONG_MIN, LONG_MAX);
    var index :- if |parts| == 11 then ReadNumber(parts[9], INT_MIN, INT_MAX) else Ok(1);
    var legCount :- if |parts| == 11 then ReadNumber(parts[10], INT_MIN, INT_MAX) else Ok(1);
    Ok(Manual(Fields(parts[1], parts[2], index, initial, slices, targets, ordinals, barTs), legCount, 0))
  }

  predicate ValidLeg(index: int, count: int) { 1 <= index <= count }

  /** A manual leg always starts over with its first target. */
  function RebuildManual(read: Read<Manual>): Parsed {
    match read
    case BadFormat => NotOurs
    case Overflow => Escapes
    case Ok(m) =>
      var f := m.fields;
      if !ValidLadder(f.slices, f.targets, f.ordinals) || !ValidLeg(f.index, m.legCount) then NotOurs
      else Rebuilt(f.candidate, f.group, f.index, 0, m.legCount, f.initial, f.slices, f.targets, f.ordinals, 0,
                   f.barTs, f.barTs)
  }

  function ParseManual(comment: string): Parsed {
    var parts := Split(comment, '|');
    if parts[0] == "avm" && (|parts| == 9 || |parts| == 11) then RebuildManual(ReadManual(parts)) else NotOurs
  }

  function ParseManualExpiry(comment: string): Option<int> {
    var parts := Split(comment, '|');
    if parts[0] != "avm" || (|parts| != 9 && |parts| != 11) then None else
    var expiry := ReadNumber(parts[8], LONG_MIN, LONG_MAX);
    if expiry.Ok? then Some(expiry.value) else None
  }

  predicate ManualInWidth(m: Manual) {
    InWidth(m.fields) && INT_MIN <= m.legCount <= INT_MAX && LONG_MIN <= m.expiresAt <= LONG_MAX
  }

  lemma PlainManualParts(m: Manual)
    requires PlainTokens(m.fields)
    ensures forall p | p in ManualParts(m) :: '|' !in p
  {
    FormatIsPlain(m.fields.index);
    FormatIsPlain(m.fields.initial);
    FormatIsPlain(m.fields.barTs);
    FormatIsPlain(m.legCount);
    FormatIsPlain(m.expiresAt);
    ListIsPlain(m.fields.slices);
    ListIsPlain(m.fields.targets);
    ListIsPlain(m.fields.ordinals);
  }

  /** What is read back of a manual leg: its number only when there was room for it. */
  function Remembered(m: Manual): Manual {
    if LegsFit(m) then Manual(Named(m.fields), m.legCount, 0)
    else Manual(Named(m.fields).(index := 1), 1, 0)
  }

  /** The base part of a manual comment, with or without the leg behind it. */
  predicate StartsAs(parts: seq<string>, candidate: string, group: string, t: Texts) {
    && |parts| >= 9 && parts[1] == candidate && parts[2] == group && parts[3] == t.initial
    && parts[4] == t.slices && parts[5] == t.targets && parts[6] == t.ordinals && parts[7] == t.barTs
  }

  /** A list that is missing makes the comment unreadable. */
  predicate ListsWritten(f: Fields) { f.slices != [] && f.targets != [] && f.ordinals != [] }

  lemma ReadManualBase(parts: seq<string>, candidate: string, group: string, t: Texts, f: Fields)
    requires StartsAs(parts, candidate, group, t) && |parts| == 9 && ReadAs(t, f)
    ensures ReadManual(parts)
         == if ListsWritten(f) then Ok(Manual(f.(candidate := candidate, group := group, index := 1), 1, 0))
             else BadFormat
  {
  }

  lemma ReadManualLeg(parts: seq<string>, candidate: string, group: string, t: Texts, f: Fields, legCount: int)
    requires StartsAs(parts, candidate, group, t) && |parts| == 11 && ReadAs(t, f)
    requires parts[9] == t.index && ReadNumber(parts[10], INT_MIN, INT_MAX) == Ok(legCount)
    ensures ReadManual(parts)
         == if ListsWritten(f) then Ok(Manual(f.(candidate := candidate, group := group), legCount, 0)) else BadFormat
  {
  }

  lemma ManualStarts(m: Manual)
    ensures StartsAs(ManualBase(m), Token(m.fields.candidate), Token(m.fields.group), TextsOf(m.fields))
        && |ManualBase(m)| == 9
    ensures StartsAs(ManualParts(m), Token(m.fields.candidate), Token(m.fields.group), TextsOf(m.fields))
        && |ManualParts(m)| == 11
    ensures ManualParts(m)[9] == TextsOf(m.fields).index && ManualParts(m)[10] == Format(m.legCount)
  {
  }

  lemma ReadShort(m: Manual)
    requires ManualInWidth(m)
    ensures ReadManual(ManualBase(m))
         == if ListsWritten(m.fields) then Ok(Manual(Named(m.fields).(index := 1), 1, 0)) else BadFormat
  {
    ManualStarts(m);
    TextsReadBack(m.fields);
    ReadManualBase(ManualBase(m), Token(m.fields.candidate), Token(m.fields.group), TextsOf(m.fields), m.fields);
  }

  lemma ReadFull(m: Manual)
    requires ManualInWidth(m)
    ensures ReadManual(ManualParts(m))
         == if ListsWritten(m.fields) then Ok(Manual(Named(m.fields), m.legCount, 0)) else BadFormat
  {
    ManualStarts(m);
    TextsReadBack(m.fields);
    ReadFormat(m.legCount, INT_MIN, INT_MAX);
    ReadManualLeg(ManualParts(m), Token(m.fields.candidate), Token(m.fields.group), TextsOf(m.fields), m.fields,
                  m.legCount);
  }

  lemma SplitManual(m: Manual)
    requires PlainTokens(m.fields) && BuildManual(m).Some?
    ensures Split(BuildManual(m).value, '|') == if LegsFit(m) then ManualParts(m) else ManualBase(m)
  {
    PlainManualParts(m);
    SplitJoin(ManualParts(m), '|');
    SplitJoin(ManualBase(m), '|');
  }

  /** The rebuilt leg is the one that was written: its tokens name the same candidate and group. */
  predicate NamesTheLeg(p: Parsed, m: Manual) {
    p.Rebuilt? && p.candidate == Token(m.fields.candidate) && p.group == Token(m.fields.group)
  }

  lemma PlainIsRead(m: Manual)
    requires ManualInWidth(m) && PlainTokens(m.fields) && BuildManual(m).Some?
    ensures ParseManual(BuildManual(m).value) == RebuildManual(Ok(Remembered(m)))
    ensures ParseManualExpiry(BuildManual(m).value) == Some(m.expiresAt)
  {
    SplitManual(m);
    ReadShort(m);
    ReadFull(m);
    ReadFormat(m.expiresAt, LONG_MIN, LONG_MAX);
  }

  /** With a separator in a token there are too many parts, or they are not the ones written. */
  lemma SeparatedIsNotRead(m: Manual)
    requires !PlainTokens(m.fields) && BuildManual(m).Some?
    ensures !NamesTheLeg(ParseManual(BuildManual(m).value), m)
    ensures LegsFit(m) ==> ParseManual(BuildManual(m).value) == NotOurs
  {
    if LegsFit(m) {
      ManualStarts(m);
      assert ManualParts(m)[1] in ManualParts(m) && ManualParts(m)[2] in ManualParts(m);
      JoinedCount(ManualParts(m), '|');
    }
    NamesArePlain(BuildManual(m).value);
  }

  lemma ReadNames(parts: seq<string>)
    requires (|parts| == 9 || |parts| == 11) && ReadManual(parts).Ok?
    ensures ReadManual(parts).value.fields.candidate == parts[1] && ReadManual(parts).value.fields.group == parts[2]
  {
  }

  lemma NamesArePlain(comment: string)
    ensures var p := ParseManual(comment); p.Rebuilt? ==> '|' !in p.candidate && '|' !in p.group
  {
    var parts := Split(comment, '|');
    PartsArePlain(comment, '|');
    if ParseManual(comment).Rebuilt? {
      ReadNames(parts);
      assert parts[1] in parts && parts[2] in parts;
    }
  }

  /** A manual comment is read back as the leg it was written for if and only if its tokens hold no
      separator, its ladder is valid and so is its leg number, as far as there was room for it: a
      leg that did not fit comes back as the only one. Then its expiry is read back too. */
  lemma ManualRoundTrip(m: Manual)
    requires ManualInWidth(m) && BuildManual(m).Some?
    ensures var p := ParseManual(BuildManual(m).value);
      && (NamesTheLeg(p, m) <==>
            PlainTokens(m.fields) && ValidFields(m.fields) && (LegsFit(m) ==> ValidLeg(m.fields.index, m.legCount)))
      && (PlainTokens(m.fields) ==> p == RebuildManual(Ok(Remembered(m))))
    ensures PlainTokens(m.fields) ==> ParseManualExpiry(BuildManual(m).value) == Some(m.expiresAt)
  {
    if PlainTokens(m.fields) { PlainIsRead(m); } else { SeparatedIsNotRead(m); }
  }

  /** The leg a rebuilt position is. */
  function LegOf(p: Parsed, expiresAt: int): Manual
    requires p.Rebuilt?
  {
    Manual(Rewritten(p, "avm"), p.trancheCount, expiresAt)
  }

  /** A rebuilt manual leg carries everything that was written: the numbers of its leg, or one of one when
      they did not fit, its ladder, and the time its group was opened. With its expiry it writes the
      comment it was rebuilt from, leg numbers aside that did not fit. */
  lemma ManualCarriesOn(m: Manual, comment: string)
    requires ManualInWidth(m) && BuildManual(m) == Some(comment) && NamesTheLeg(ParseManual(comment), m)
    ensures var p := ParseManual(comment);
      && p.initial == m.fields.initial && p.slices == m.fields.slices && p.targets == m.fields.targets
      && p.ordinals == m.fields.ordinals && p.lastBarTs == m.fields.barTs && p.groupOpenedAt == m.fields.barTs
      && p.zoneLeg == 0 && p.next == 0
      && p.tranche == (if LegsFit(m) then m.fields.index else 1)
      && p.trancheCount == (if LegsFit(m) then m.legCount else 1)
    ensures var again := LegOf(ParseManual(comment), m.expiresAt);
      if LegsFit(m) then BuildManual(again) == Some(comment) else Join(ManualBase(again), '|') == comment
  {
    ManualRoundTrip(m);
    ShortTokens(m.fields);
    var again := LegOf(ParseManual(comment), m.expiresAt);
    assert ManualBase(again) == ManualBase(m);
    if LegsFit(m) { assert ManualParts(again) == ManualParts(m); }
  }

  /** A rebuilt manual leg goes on with its first target, whatever is left of its volume: that is
      the first open one if and only if less than the first slice is closed. */
  lemma ManualStartsOver(m: Manual, volume: int)
    requires ManualInWidth(m) && BuildManual(m).Some? && NamesTheLeg(ParseManual(BuildManual(m).value), m)
    ensures var p := ParseManual(BuildManual(m).value);
      && p.initial == m.fields.initial && p.slices == m.fields.slices && p.slices != []
      && (p.next == NextFrom(p.slices, Max(0, p.initial - volume), 0) <==> p.initial - volume < p.slices[0])
  {
    ManualRoundTrip(m);
    var closed := Max(0, m.fields.initial - volume);
    NextIsFirstOpen(m.fields.slices, closed, 0);
    assert Prefix(m.fields.slices, 1) == m.fields.slices[0];
  }

  const TWO_TARGETS := Manual(Fields("c", "g", 1, 2, [1, 1], [10, 20], [1, 2], 0), 1, 0)

  /** A leg of two units that has booked one of them: after a restart its first target is due
      again, though the second is the next one. */
  lemma RestartBooksAgain()
    ensures BuildManual(TWO_TARGETS) == Some("avm|c|g|2|1,1|10,20|1,2|0|0|1|1")
    ensures var p := ParseManual("avm|c|g|2|1,1|10,20|1,2|0|0|1|1");
      p.Rebuilt? && p.next == 0 && NextFrom(p.slices, p.initial - 1, 0) == 1
  {
    WrittenOut();
    ExampleFits(TWO_TARGETS);
    ManualRoundTrip(TWO_TARGETS);
    SecondIsNext();
  }

  lemma ExampleFits(m: Manual)
    requires m == TWO_TARGETS
    ensures ManualInWidth(m) && PlainTokens(m.fields) && ValidFields(m.fields) && ValidLeg(m.fields.index, m.legCount)
  {
  }

  lemma SecondIsNext()
    ensures NextFrom([1, 1], 1, 0) == 1
  {
    NextIsFirstOpen([1, 1], 1, 1);
    assert Prefix([1, 1], 1) == 1 && Prefix([1, 1], 2) == 2;
  }

  lemma JoinCons(first: string, rest: seq<string>)
    requires rest != []
    ensures Join([first] + rest, '|') == first + "|" + Join(rest, '|')
  {
    assert ([first] + rest)[1..] == rest;
  }

  lemma PairText(a: string, b: string)
    ensures Join([a, b], ',') == a + "," + b
  {
    assert [a, b][1..] == [b];
  }

  lemma ExampleTexts()
    ensures Format(0) == "0" && Format(1) == "1" && Format(2) == "2"
    ensures ListText([1, 1]) == "1,1" && ListText([10, 20]) == "10,20" && ListText([1, 2]) == "1,2"
  {
    assert FormatNat(10) == FormatNat(1) + "0" && FormatNat(20) == FormatNat(2) + "0";
    assert Format(10) == "10" && Format(20) == "20";
    assert Formats([1, 1]) == ["1", "1"] && Formats([10, 20]) == ["10", "20"] && Formats([1, 2]) == ["1", "2"];
    PairText("1", "1");
    PairText("10", "20");
    PairText("1", "2");
  }

  const TAIL: seq<string> := ["1,2", "0", "0", "1", "1"]

  lemma ExampleTail()
    ensures Join(TAIL, '|') == "1,2|0|0|1|1"
  {
    assert Join(["1"], '|') == "1";
    JoinCons("1", ["1"]);
    assert ["1"] + ["1"] == ["1", "1"] && Join(["1", "1"], '|') == "1|1";
    JoinCons("0", ["1", "1"]);
    assert ["0"] + ["1", "1"] == ["0", "1", "1"] && Join(["0", "1", "1"], '|') == "0|1|1";
    JoinCons("0", ["0", "1", "1"]);
    assert ["0"] + ["0", "1", "1"] == ["0", "0", "1", "1"] && Join(["0", "0", "1", "1"], '|') == "0|0|1|1";
    JoinCons("1,2", ["0", "0", "1", "1"]);
    assert ["1,2"] + ["0", "0", "1", "1"] == TAIL;
  }

  lemma JoinTwo(a: string, b: string, rest: seq<string>)
    requires rest != []
    ensures Join([a, b] + rest, '|') == a + "|" + b + "|" + Join(rest, '|')
  {
    JoinCons(b, rest);
    JoinCons(a, [b] + rest);
    assert [a] + ([b] + rest) == [a, b] + rest;
  }

  lemma JoinSix(a: string, b: string, c: string, d: string, e: string, f: string, rest: seq<string>)
    requires rest != []
    ensures Join([a, b, c, d, e, f] + rest, '|')
         == a + "|" + b + "|" + (c + "|" + d + "|" + (e + "|" + f + "|" + Join(rest, '|')))
  {
    var third := [e, f] + rest;
    var second := [c, d] + third;
    JoinTwo(e, f, rest);
    JoinTwo(c, d, third);
    JoinTwo(a, b, second);
    assert [a, b] + second == [a, b, c, d, e, f] + rest;
  }

  lemma WrittenOut()
    ensures Join(ManualParts(TWO_TARGETS), '|') == "avm|c|g|2|1,1|10,20|1,2|0|0|1|1"
  {
    ExampleTexts();
    ExampleTail();
    JoinSix("avm", "c", "g", "2", "1,1", "10,20", TAIL);
    ExampleText();
    ExampleParts();
  }

  lemma ExampleText()
    ensures "avm" + "|" + "c" + "|" + ("g" + "|" + "2" + "|" + ("1,1" + "|" + "10,20" + "|" + "1,2|0|0|1|1"))
         == "avm|c|g|2|1,1|10,20|1,2|0|0|1|1"
  {
  }

  lemma ExampleParts()
    ensures ManualParts(TWO_TARGETS) == ["avm", "c", "g", "2", "1,1", "10,20"] + TAIL
  {
    ExampleTexts();
  }
}
