/** Message templates: finding slots, refusing what is not a template, filling in values once. */
module Consent {
  import opened Text
  import opened Enums

  predicate NameStart(c: char) { 'A' <= c <= 'Z' || 'a' <= c <= 'z' || c == '_' }

  predicate NameChar(c: char) { NameStart(c) || IsDigit(c) }

  predicate Name(s: string) { s != "" && NameStart(s[0]) && forall i :: 0 <= i < |s| ==> NameChar(s[i]) }

  /** A name is an identifier: letters and underscores by their codes, and digits after the first character. */
  lemma NamesAreIdentifiers(c: char)
    ensures NameStart(c) <==> 65 <= c as int <= 90 || 97 <= c as int <= 122 || c as int == 95
    ensures NameChar(c) <==> NameStart(c) || 48 <= c as int <= 57
  {
  }

  /** How many name characters a text begins with. */
  function NameRun(s: string): (n: nat)
    ensures n <= |s|
    ensures forall i :: 0 <= i < n ==> NameChar(s[i])
    ensures n < |s| ==> !NameChar(s[n])
  {
    if s == "" || !NameChar(s[0]) then 0 else 1 + NameRun(s[1..])
  }

  /** The name of the slot a text begins with: a brace, a bare identifier, a brace. */
  function SlotAt(s: string): (r: Option<string>)
    ensures r.Some? ==> Name(r.value) && |s| >= |r.value| + 2 && s[..|r.value| + 2] == "{" + r.value + "}"
  {
    if |s| < 3 || s[0] != '{' || !NameStart(s[1]) then None
    else
      var n := NameRun(s[1..]);
      if 1 + n < |s| && s[1 + n] == '}' then Some(s[1..1 + n]) else None
  }

  datatype Piece = Lit(c: char) | Slot(name: string)

  /** What the slot pattern finds from left to right, and the characters it passes over. */
  function Scan(s: string): seq<Piece>
    decreases |s|
  {
    if s == "" then []
    else
      match SlotAt(s)
      case Some(name) => [Slot(name)] + Scan(s[|name| + 2..])
      case None => [Lit(s[0])] + Scan(s[1..])
  }

  function PieceText(p: Piece): string {
    match p case Lit(c) => [c] case Slot(name) => "{" + name + "}"
  }

  function Unparse(pieces: seq<Piece>): string {
    if pieces == [] then "" else PieceText(pieces[0]) + Unparse(pieces[1..])
  }

  predicate Brace(c: char) { c == '{' || c == '}' }

  /** Slots with proper names, and text without a brace in it. */
  predicate WellSplit(pieces: seq<Piece>) {
    forall i :: 0 <= i < |pieces| ==>
      match pieces[i] case Lit(c) => c != '{' && c != '}' case Slot(name) => Name(name)
  }

  /** What is left when the slots are taken out. */
  function Residue(pieces: seq<Piece>): string {
    if pieces == [] then ""
    else (match pieces[0] case Lit(c) => [c] case Slot(_) => "") + Residue(pieces[1..])
  }

  predicate BraceFree(s: string) { forall i :: 0 <= i < |s| ==> !Brace(s[i]) }

  lemma UnparseOne(p: Piece, rest: seq<Piece>)
    ensures Unparse([p] + rest) == PieceText(p) + Unparse(rest)
  {
  }

  /** Nothing is lost in scanning. */
  lemma {:induction false} ScanUnparses(s: string)
    ensures Unparse(Scan(s)) == s
    decreases |s|
  {
    hide SlotAt, Unparse;
    if s == "" {
      EmptyUnparses();
    } else {
      match SlotAt(s)
      case Some(name) =>
        var rest := s[|name| + 2..];
        ScanUnparses(rest);
        UnparseOne(Slot(name), Scan(rest));
        assert s == s[..|name| + 2] + rest;
      case None =>
        ScanUnparses(s[1..]);
        UnparseOne(Lit(s[0]), Scan(s[1..]));
        assert s == [s[0]] + s[1..];
    }
  }

  lemma EmptyUnparses()
    ensures Unparse([]) == ""
  {
  }

  lemma NameRunOf(name: string, rest: string)
    requires Name(name)
    ensures NameRun(name + "}" + rest) == |name|
  {
    var s := name + "}" + rest;
    assert s[|name|] == '}' && !NameChar('}');
    assert forall i :: 0 <= i < |name| ==> s[i] == name[i];
  }

  lemma SlotAtItsText(name: string, rest: string)
    requires Name(name)
    ensures SlotAt("{" + name + "}" + rest) == Some(name)
  {
    var s := "{" + name + "}" + rest;
    NameRunOf(name, rest);
    assert s[1..] == name + "}" + rest;
    assert s[1..1 + |name|] == name;
  }

  /** A split into names and brace-free text is the one the scan finds: it is unique. */
  lemma {:induction false} SplitIsUnique(pieces: seq<Piece>)
    requires WellSplit(pieces)
    ensures Scan(Unparse(pieces)) == pieces
  {
    if pieces != [] {
      var rest := Unparse(pieces[1..]);
      SplitIsUnique(pieces[1..]);
      match pieces[0]
      case Lit(c) =>
        assert Unparse(pieces) == [c] + rest;
        assert ([c] + rest)[1..] == rest;
      case Slot(name) =>
        SlotAtItsText(name, rest);
        assert Unparse(pieces) == "{" + name + "}" + rest;
        assert ("{" + name + "}" + rest)[|name| + 2..] == rest;
    }
  }

  lemma {:induction false} ResidueBraces(s: string)
    ensures BraceFree(Residue(Scan(s))) <==> WellSplit(Scan(s))
    decreases |s|
  {
    if s != "" {
      var rest := match SlotAt(s) case Some(name) => s[|name| + 2..] case None => s[1..];
      ResidueBraces(rest);
      var all := Scan(s);
      assert all[1..] == Scan(rest);
      assert WellSplit(all) <==> WellSplit([all[0]]) && WellSplit(all[1..]) by {
        assert all == [all[0]] + all[1..];
        assert [all[0]][0] == all[0];
      }
      match all[0]
      case Lit(c) =>
        assert Residue(all) == [c] + Residue(Scan(rest));
        assert BraceFree([c] + Residue(Scan(rest))) <==> !Brace(c) && BraceFree(Residue(Scan(rest))) by {
          assert ([c] + Residue(Scan(rest)))[0] == c;
          assert ([c] + Residue(Scan(rest)))[1..] == Residue(Scan(rest));
          assert forall i :: 0 <= i < |Residue(Scan(rest))| ==> ([c] + Residue(Scan(rest)))[i + 1] == Residue(Scan(rest))[i];
        }
        assert WellSplit([all[0]]) <==> !Brace(c);
      case Slot(_) =>
        assert Residue(all) == Residue(Scan(rest));
    }
  }

  /** The brace check accepts a body exactly when it splits into brace-free text and slots. */
  lemma AcceptsExactlySplits(body: string)
    ensures BraceFree(Residue(Scan(body))) <==> exists pieces :: WellSplit(pieces) && Unparse(pieces) == body
  {
    ResidueBraces(body);
    if WellSplit(Scan(body)) {
      ScanUnparses(body);
    }
    forall pieces | WellSplit(pieces) && Unparse(pieces) == body ensures WellSplit(Scan(body)) {
      SplitIsUnique(pieces);
    }
  }

  // --------------------------------------------------------------------------
  // Slots.

  function SlotNames(pieces: seq<Piece>): set<string> {
    set i | 0 <= i < |pieces| && pieces[i].Slot? :: pieces[i].name
  }

  /** Slot names in order of first appearance. */
  function FirstSeen(pieces: seq<Piece>): seq<string> {
    if pieces == [] then []
    else
      var seen, last := FirstSeen(pieces[..|pieces| - 1]), pieces[|pieces| - 1];
      if last.Slot? && last.name !in seen then seen + [last.name] else seen
  }

  lemma {:induction false} FirstSeenIsTheNames(pieces: seq<Piece>)
    ensures (set n | n in FirstSeen(pieces)) == SlotNames(pieces)
    ensures forall i, j :: 0 <= i < j < |FirstSeen(pieces)| ==> FirstSeen(pieces)[i] != FirstSeen(pieces)[j]
  {
    if pieces != [] {
      var n := |pieces| - 1;
      FirstSeenIsTheNames(pieces[..n]);
      assert SlotNames(pieces) == SlotNames(pieces[..n]) + if pieces[n].Slot? then {pieces[n].name} else {} by {
        assert forall i :: 0 <= i < n ==> pieces[..n][i] == pieces[i];
      }
    }
  }

  method ExtractSlots(body: string) returns (names: seq<string>)
    ensures names == FirstSeen(Scan(body))
    ensures (set n | n in names) == SlotNames(Scan(body))
    ensures forall i, j :: 0 <= i < j < |names| ==> names[i] != names[j]
  {
    names := [];
    var pieces := Scan(body);
    for i := 0 to |pieces|
      invariant names == FirstSeen(pieces[..i])
    {
      assert pieces[..i + 1][..i] == pieces[..i];
      if pieces[i].Slot? && pieces[i].name !in names {
        names := names + [pieces[i].name];
      }
    }
    assert pieces[..|pieces|] == pieces;
    FirstSeenIsTheNames(pieces);
  }

  // --------------------------------------------------------------------------
  // Rendering.

  datatype Template = Template(
    approved: bool, dltId: Option<string>, channel: Channel, messageClass: MessageClass, body: string)

  datatype Refusal =
    | TemplateNotApproved | MissingDltId | MarketingWithoutConsent | NoTransactionalConsent
    | MissingSlots(names: set<string>) | UnusedSlots(names: set<string>) | ForbiddenSlots(names: set<string>)
    | ControlCharacters(slot: string) | NewlineInSlot(slot: string)
    | UnresolvedPlaceholder | BodyTooLong(length: nat, limit: nat)

  datatype Rendering = Rendered(body: string) | Refused(why: Refusal)

  /** A value for a slot, in the order the caller's dictionary holds them. */
  datatype Binding = Binding(name: string, value: string)

  const ALLOWED_SLOTS: set<string> :=
    {"first_name", "amount", "cause", "link", "validity", "discount", "invoice_id", "due_date", "merchant_name"}

  predicate DltRequired(c: Channel) { c.Sms? || c.WhatsApp? }

  function BodyLimit(c: Channel): nat {
    match c case Sms => 160 case WhatsApp => 1024 case Email => 5000 case NoChannel => 0
  }

  predicate Control(c: char) {
    var n := c as int;
    n <= 8 || n == 11 || n == 12 || 14 <= n <= 31 || n == 127
  }

  predicate HasControl(s: string) { exists i :: 0 <= i < |s| && Control(s[i]) }

  predicate HasNewline(s: string) { exists i :: 0 <= i < |s| && (s[i] == '\n' || s[i] == '\r') }

  predicate CleanValue(s: string, c: Channel) { !HasControl(s) && (c.Email? || !HasNewline(s)) }

  function Provided(slots: seq<Binding>): set<string> { set i | 0 <= i < |slots| :: slots[i].name }

  /** The first value that may not go into a message. */
  function ValueFault(slots: seq<Binding>, c: Channel): Option<Refusal> {
    if slots == [] then None
    else if HasControl(slots[0].value) then Some(ControlCharacters(slots[0].name))
    else if !c.Email? && HasNewline(slots[0].value) then Some(NewlineInSlot(slots[0].name))
    else ValueFault(slots[1..], c)
  }

  function ValueOf(slots: seq<Binding>, name: string): string {
    if slots == [] then "" else if slots[0].name == name then slots[0].value else ValueOf(slots[1..], name)
  }

  /** Text as it stands, slots replaced by their values as they stand. */
  function Fill(pieces: seq<Piece>, slots: seq<Binding>): string {
    if pieces == [] then ""
    else (match pieces[0] case Lit(c) => [c] case Slot(name) => ValueOf(slots, name)) + Fill(pieces[1..], slots)
  }

  function Render(t: Template, slots: seq<Binding>, marketing: bool, transactional: bool): Rendering {
    var pieces := Scan(t.body);
    var required, provided := SlotNames(pieces), Provided(slots);
    var text := Fill(pieces, slots);
    if !t.approved then Refused(TemplateNotApproved)
    else if DltRequired(t.channel) && (t.dltId.None? || t.dltId.value == "") then Refused(MissingDltId)
    else if t.messageClass.Marketing? && !marketing then Refused(MarketingWithoutConsent)
    else if !transactional then Refused(NoTransactionalConsent)
    else if required - provided != {} then Refused(MissingSlots(required - provided))
    else if provided - required != {} then Refused(UnusedSlots(provided - required))
    else if required - ALLOWED_SLOTS != {} then Refused(ForbiddenSlots(required - ALLOWED_SLOTS))
    else if ValueFault(slots, t.channel).Some? then Refused(ValueFault(slots, t.channel).value)
    else if !BraceFree(Residue(pieces)) then Refused(UnresolvedPlaceholder)
    else if |text| > BodyLimit(t.channel) then Refused(BodyTooLong(|text|, BodyLimit(t.channel)))
    else Rendered(text)
  }

  lemma {:induction false} ValuesAreClean(slots: seq<Binding>, c: Channel)
    ensures ValueFault(slots, c).None? <==> forall i :: 0 <= i < |slots| ==> CleanValue(slots[i].value, c)
  {
    if slots != [] {
      ValuesAreClean(slots[1..], c);
      hide HasControl, HasNewline;
      assert slots == [slots[0]] + slots[1..];
      assert forall i :: 0 < i < |slots| ==> slots[i] == slots[1..][i - 1];
      assert forall i :: 0 <= i < |slots| - 1 ==> slots[1..][i] == slots[i + 1];
    }
  }

  lemma Within(a: set<string>, b: set<string>)
    ensures a - b == {} <==> a <= b
  {
    if a - b == {} {
      forall x | x in a ensures x in b {
        assert x !in a - b;
      }
    }
  }

  /** Everything a body must be for a message to come of it. */
  ghost predicate Sendable(t: Template, slots: seq<Binding>, marketing: bool, transactional: bool) {
    && t.approved && (DltRequired(t.channel) ==> t.dltId.Some? && t.dltId.value != "")
    && (t.messageClass.Marketing? ==> marketing) && transactional
    && (forall i :: 0 <= i < |slots| ==> CleanValue(slots[i].value, t.channel))
    && exists pieces ::
         && WellSplit(pieces) && Unparse(pieces) == t.body
         && SlotNames(pieces) == Provided(slots) && SlotNames(pieces) <= ALLOWED_SLOTS
         && |Fill(pieces, slots)| <= BodyLimit(t.channel)
  }

  /** A message comes of a template exactly when it is sendable, and then it is the split with the values put in. */
  lemma RendersExactlyWhenSendable(t: Template, slots: seq<Binding>, marketing: bool, transactional: bool)
    ensures Render(t, slots, marketing, transactional).Rendered? <==> Sendable(t, slots, marketing, transactional)
    ensures Render(t, slots, marketing, transactional).Rendered? ==>
      forall pieces :: WellSplit(pieces) && Unparse(pieces) == t.body ==>
        Render(t, slots, marketing, transactional).body == Fill(pieces, slots)
  {
    var pieces := Scan(t.body);
    ResidueBraces(t.body);
    ValuesAreClean(slots, t.channel);
    ScanUnparses(t.body);
    hide CleanValue, Residue, ValueFault, Fill, Scan, ALLOWED_SLOTS, SlotNames, Provided, BraceFree;
    forall other | WellSplit(other) && Unparse(other) == t.body ensures other == pieces {
      SplitIsUnique(other);
    }
    Within(SlotNames(pieces), Provided(slots));
    Within(Provided(slots), SlotNames(pieces));
    Within(SlotNames(pieces), ALLOWED_SLOTS);
    hide Unparse, WellSplit;
  }

  // --------------------------------------------------------------------------
  // Whose value goes where.

  /** The bindings of a dictionary: one a name. */
  predicate DistinctNames(slots: seq<Binding>) {
    forall i, j :: 0 <= i < j < |slots| ==> slots[i].name != slots[j].name
  }

  lemma {:induction false} ValueOfItsName(slots: seq<Binding>, i: nat)
    requires DistinctNames(slots) && i < |slots|
    ensures ValueOf(slots, slots[i].name) == slots[i].value
  {
    if i > 0 {
      assert slots[i].name == slots[1..][i - 1].name != slots[0].name;
      ValueOfItsName(slots[1..], i - 1);
    }
  }

  /**
   A rendered message is the template's text with, in the place of each slot, the value given for just that
   name: around any slot of the body, what comes before, that value, and what comes after.
   */
  lemma EachSlotGetsItsOwnValue(
    t: Template, slots: seq<Binding>, marketing: bool, transactional: bool, before: seq<Piece>, i: nat, after: seq<Piece>)
    requires Render(t, slots, marketing, transactional).Rendered? && DistinctNames(slots) && i < |slots|
    requires WellSplit(before) && WellSplit(after) && t.body == Unparse(before + [Slot(slots[i].name)] + after)
    ensures Render(t, slots, marketing, transactional).body == Fill(before, slots) + slots[i].value + Fill(after, slots)
  {
    var pieces := before + [Slot(slots[i].name)] + after;
    RendersExactlyWhenSendable(t, slots, marketing, transactional);
    SlotNamesAreNames(t, slots, marketing, transactional, i);
    WellSplitAround(before, slots[i].name, after);
    ValueOfItsName(slots, i);
    FillAround(before, slots[i].name, after, slots);
    hide Render, Fill, Unparse, ValueOf, Sendable, WellSplit;
  }

  /** A name given for a rendered template is a name. */
  lemma SlotNamesAreNames(t: Template, slots: seq<Binding>, marketing: bool, transactional: bool, i: nat)
    requires Sendable(t, slots, marketing, transactional) && i < |slots|
    ensures Name(slots[i].name)
  {
    hide ALLOWED_SLOTS, CleanValue, Unparse, Fill, Name;
    var pieces: seq<Piece> :| WellSplit(pieces) && SlotNames(pieces) == Provided(slots);
    assert slots[i].name in SlotNames(pieces);
    var k :| 0 <= k < |pieces| && pieces[k].Slot? && pieces[k].name == slots[i].name;
  }

  /** The values by name, and a split mapped through them, from its end. */
  function Values(slots: seq<Binding>): map<string, string>
    requires DistinctNames(slots)
  {
    map i | 0 <= i < |slots| :: slots[i].name := slots[i].value
  }

  function Mapped(pieces: seq<Piece>, values: map<string, string>): string {
    if pieces == [] then ""
    else
      var last := pieces[|pieces| - 1];
      Mapped(pieces[..|pieces| - 1], values)
      + match last case Lit(c) => [c] case Slot(name) => if name in values then values[name] else ""
  }

  lemma {:induction false} FillConcat(first: seq<Piece>, second: seq<Piece>, slots: seq<Binding>)
    ensures Fill(first + second, slots) == Fill(first, slots) + Fill(second, slots)
  {
    hide ValueOf;
    if first == [] {
      assert first + second == second;
    } else {
      FillConcat(first[1..], second, slots);
      assert (first + second)[1..] == first[1..] + second && (first + second)[0] == first[0];
    }
  }

  lemma FillOne(p: Piece, slots: seq<Binding>)
    ensures Fill([p], slots) == if p.Lit? then [p.c] else ValueOf(slots, p.name)
  {
    hide ValueOf;
    assert Fill([p][1..], slots) == "";
  }

  lemma FillAround(before: seq<Piece>, name: string, after: seq<Piece>, slots: seq<Binding>)
    ensures Fill(before + [Slot(name)] + after, slots) == Fill(before, slots) + ValueOf(slots, name) + Fill(after, slots)
  {
    hide Fill, ValueOf;
    FillConcat(before + [Slot(name)], after, slots);
    FillConcat(before, [Slot(name)], slots);
    FillOne(Slot(name), slots);
  }

  lemma {:induction false} FillIsMapped(pieces: seq<Piece>, slots: seq<Binding>)
    requires DistinctNames(slots) && SlotNames(pieces) <= Provided(slots)
    ensures Fill(pieces, slots) == Mapped(pieces, Values(slots))
  {
    if pieces != [] {
      var n := |pieces| - 1;
      assert pieces == pieces[..n] + [pieces[n]];
      assert forall i :: 0 <= i < n ==> pieces[..n][i] == pieces[i];
      FillIsMapped(pieces[..n], slots);
      FillConcat(pieces[..n], [pieces[n]], slots);
      FillOne(pieces[n], slots);
      hide Fill;
      if pieces[n].Slot? {
        assert pieces[n].name in SlotNames(pieces);
        var i :| 0 <= i < |slots| && slots[i].name == pieces[n].name;
        ValueOfItsName(slots, i);
      }
    }
  }

  /** What goes out is the split of the body, whichever way it is found, mapped through the values by name. */
  lemma RendersTheMappedSplit(t: Template, slots: seq<Binding>, marketing: bool, transactional: bool, pieces: seq<Piece>)
    requires Render(t, slots, marketing, transactional).Rendered? && DistinctNames(slots)
    requires WellSplit(pieces) && Unparse(pieces) == t.body
    ensures Render(t, slots, marketing, transactional).body == Mapped(pieces, Values(slots))
  {
    RendersExactlyWhenSendable(t, slots, marketing, transactional);
    hide Render, Fill, Unparse, ALLOWED_SLOTS, CleanValue, WellSplit, Scan;
    var other: seq<Piece> :| WellSplit(other) && Unparse(other) == t.body && SlotNames(other) == Provided(slots);
    SplitIsUnique(other);
    SplitIsUnique(pieces);
    FillIsMapped(pieces, slots);
  }

  // --------------------------------------------------------------------------
  // Why a message is refused.

  /** Permitted in a value: printable characters and tabs, and in an email line ends. */
  predicate Permitted(c: char, channel: Channel) {
    (c as int >= 32 && c as int != 127) || c == '\t' || (channel.Email? && (c == '\n' || c == '\r'))
  }

  lemma CleanExactly(s: string, channel: Channel)
    ensures CleanValue(s, channel) <==> forall i :: 0 <= i < |s| ==> Permitted(s[i], channel)
  {
    if !CleanValue(s, channel) {
      if HasControl(s) {
        var i :| 0 <= i < |s| && Control(s[i]);
        assert !Permitted(s[i], channel);
      } else {
        var i :| 0 <= i < |s| && (s[i] == '\n' || s[i] == '\r');
        assert !Permitted(s[i], channel);
      }
    } else {
      forall i | 0 <= i < |s| ensures Permitted(s[i], channel) {
        assert !Control(s[i]);
      }
    }
  }

  lemma {:induction false} FaultIsTheFirst(slots: seq<Binding>, channel: Channel)
    requires ValueFault(slots, channel).Some?
    ensures var why := ValueFault(slots, channel).value;
            exists i :: 0 <= i < |slots| && !CleanValue(slots[i].value, channel)
              && (forall j :: 0 <= j < i ==> CleanValue(slots[j].value, channel))
              && why == if HasControl(slots[i].value) then ControlCharacters(slots[i].name) else NewlineInSlot(slots[i].name)
  {
    if CleanValue(slots[0].value, channel) {
      FaultIsTheFirst(slots[1..], channel);
      var why := ValueFault(slots, channel).value;
      hide CleanValue, HasControl, ValueFault;
      var i :| 0 <= i < |slots| - 1 && !CleanValue(slots[1..][i].value, channel)
        && (forall j :: 0 <= j < i ==> CleanValue(slots[1..][j].value, channel))
        && why == if HasControl(slots[1..][i].value) then ControlCharacters(slots[1..][i].name) else NewlineInSlot(slots[1..][i].name);
      assert slots[i + 1] == slots[1..][i];
      assert forall j :: 0 < j < i + 1 ==> slots[j] == slots[1..][j - 1];
    }
  }

  /** The refusal is the first there is reason for, in this order, and says what is wrong. */
  lemma RefusesForTheFirstReason(t: Template, slots: seq<Binding>, marketing: bool, transactional: bool)
    requires Render(t, slots, marketing, transactional).Refused?
    ensures var why := Render(t, slots, marketing, transactional).why;
            var inBody, given := SlotNames(Scan(t.body)), Provided(slots);
            if !t.approved then why == TemplateNotApproved
            else if (t.channel.Sms? || t.channel.WhatsApp?) && (t.dltId.None? || t.dltId == Some("")) then why == MissingDltId
            else if t.messageClass.Marketing? && !marketing then why == MarketingWithoutConsent
            else if !transactional then why == NoTransactionalConsent
            else if !(inBody <= given) then why.MissingSlots? && forall n :: n in why.names <==> n in inBody && n !in given
            else if !(given <= inBody) then why.UnusedSlots? && forall n :: n in why.names <==> n in given && n !in inBody
            else if exists n :: n in inBody && !AllowedSlot(n) then
              why.ForbiddenSlots? && forall n :: n in why.names <==> n in inBody && !AllowedSlot(n)
            else if exists i :: 0 <= i < |slots| && !CleanValue(slots[i].value, t.channel) then
              exists i :: 0 <= i < |slots| && !CleanValue(slots[i].value, t.channel)
                && (forall j :: 0 <= j < i ==> CleanValue(slots[j].value, t.channel))
                && why == if HasControl(slots[i].value) then ControlCharacters(slots[i].name) else NewlineInSlot(slots[i].name)
            else if !exists pieces :: WellSplit(pieces) && Unparse(pieces) == t.body then why == UnresolvedPlaceholder
            else why.BodyTooLong? && why.length > why.limit
                 && why.limit == (match t.channel case Sms => 160 case WhatsApp => 1024 case Email => 5000 case NoChannel => 0)
  {
    ValuesAreClean(slots, t.channel);
    AcceptsExactlySplits(t.body);
    AllowedExactly();
    var inBody, given := SlotNames(Scan(t.body)), Provided(slots);
    Within(inBody, given);
    Within(given, inBody);
    Within(inBody, ALLOWED_SLOTS);
    if ValueFault(slots, t.channel).Some? {
      FaultIsTheFirst(slots, t.channel);
    }
    hide CleanValue, HasControl, ValueFault, Scan, Unparse, WellSplit, Residue, BraceFree, Fill, SlotNames, Provided, ALLOWED_SLOTS, AllowedSlot;
  }

  /** The nine slots a template may have. */
  predicate AllowedSlot(n: string) {
    || n == "first_name" || n == "amount" || n == "cause" || n == "link" || n == "validity" || n == "discount"
    || n == "invoice_id" || n == "due_date" || n == "merchant_name"
  }

  lemma AllowedExactly()
    ensures forall n :: n in ALLOWED_SLOTS <==> AllowedSlot(n)
  {
  }

  /** A message that goes out is no longer than its channel takes. */
  lemma RenderedFits(t: Template, slots: seq<Binding>, marketing: bool, transactional: bool)
    requires Render(t, slots, marketing, transactional).Rendered?
    ensures |Render(t, slots, marketing, transactional).body|
            <= match t.channel case Sms => 160 case WhatsApp => 1024 case Email => 5000 case NoChannel => 0
  {
  }

  lemma WellSplitAround(before: seq<Piece>, name: string, after: seq<Piece>)
    requires WellSplit(before) && WellSplit(after) && Name(name)
    ensures WellSplit(before + [Slot(name)] + after)
  {
    hide Name;
    var all := before + [Slot(name)] + after;
    assert forall i :: 0 <= i < |all| ==>
      all[i] == if i < |before| then before[i] else if i == |before| then Slot(name) else after[i - |before| - 1];
  }

  /** A value that looks like a slot goes out as it is: no other value is put into it. */
  lemma ValuesAreNotRescanned(before: seq<Piece>, name: string, after: seq<Piece>, slots: seq<Binding>, other: string)
    requires WellSplit(before) && WellSplit(after) && Name(name) && ValueOf(slots, name) == "{" + other + "}"
    ensures var body := Unparse(before + [Slot(name)] + after);
            Fill(Scan(body), slots) == Fill(before, slots) + "{" + other + "}" + Fill(after, slots)
  {
    hide Scan, Unparse, WellSplit, Fill, ValueOf, Name;
    var pieces := before + [Slot(name)] + after;
    WellSplitAround(before, name, after);
    SplitIsUnique(pieces);
    FillAround(before, name, after, slots);
  }

  /** Filling every slot with its own text gives the body back. */
  lemma {:induction false} OwnTextsGiveTheBody(pieces: seq<Piece>, slots: seq<Binding>)
    requires forall i :: 0 <= i < |pieces| && pieces[i].Slot? ==>
               ValueOf(slots, pieces[i].name) == "{" + pieces[i].name + "}"
    ensures Fill(pieces, slots) == Unparse(pieces)
  {
    if pieces != [] {
      OwnTextsGiveTheBody(pieces[1..], slots);
      assert pieces[0].Slot? ==> ValueOf(slots, pieces[0].name) == "{" + pieces[0].name + "}";
    }
  }

  /** So a template rendered with its own slots is its own body, if it renders at all. */
  lemma RenderingIsIdentityOnItself(t: Template, slots: seq<Binding>, marketing: bool, transactional: bool)
    requires forall n :: n in SlotNames(Scan(t.body)) ==> ValueOf(slots, n) == "{" + n + "}"
    requires Render(t, slots, marketing, transactional).Rendered?
    ensures Render(t, slots, marketing, transactional).body == t.body && |t.body| <= BodyLimit(t.channel)
  {
    var pieces := Scan(t.body);
    forall i | 0 <= i < |pieces| && pieces[i].Slot? ensures ValueOf(slots, pieces[i].name) == "{" + pieces[i].name + "}" {
      assert pieces[i].name in SlotNames(pieces);
    }
    OwnTextsGiveTheBody(pieces, slots);
    ScanUnparses(t.body);
    hide Scan, Fill, Unparse;
  }
}
