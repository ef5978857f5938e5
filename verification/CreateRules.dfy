/** What defaults(), check() and createSpec() of a create builder come to, said
    column by column and entity by entity. */
module CreateRules {

  import opened Wrappers
  import opened Schema

  // ---------------------------------------------------------------- defaults()

  ghost predicate HasDefault(e: Entity, c: Column) {
    exists k :: 0 <= k < |e.Defaults()| && e.Defaults()[k].col == c
  }

  /** `after` is `before` with its defaults: a column that was set keeps its value, an
      unset one with a default has the constant or the time of the call, no other column
      is touched, and the ID is the one that was set, or the new one. */
  ghost predicate FilledIn(e: Entity, before: Draft, after: Draft, clock: Column -> int, newId: UUID) {
    && after.id == Some(if before.id.Some? then before.id.value else newId)
    && (forall c :: c in before.fields ==> c in after.fields && after.fields[c] == before.fields[c])
    && (forall k :: 0 <= k < |e.Defaults()| && e.Defaults()[k].col !in before.fields ==>
          Fills(e.Defaults()[k], after.fields, clock))
    && (forall c :: c in after.fields ==> c in before.fields || HasDefault(e, c))
  }

  ghost predicate Fills(d: Default, fields: map<Column, Value>, clock: Column -> int) {
    && d.col in fields
    && (d.Always? ==> fields[d.col] == d.v)
    && (d.Clock? ==> fields[d.col] == TimeV(clock(d.col)))
  }

  lemma DefaultColumnsDiffer(e: Entity)
    ensures forall j, k :: 0 <= j < k < |e.Defaults()| ==> e.Defaults()[j].col != e.Defaults()[k].col
  {
  }

  lemma {:induction false} DefaultFieldsFill(defaults: seq<Default>, fields: map<Column, Value>, clock: Column -> int)
    requires forall j, k :: 0 <= j < k < |defaults| ==> defaults[j].col != defaults[k].col
    ensures var r := DefaultFields(defaults, fields, clock);
            && (forall k :: 0 <= k < |defaults| && defaults[k].col !in fields ==> Fills(defaults[k], r, clock))
            && (forall c :: c in r ==> c in fields || exists k :: 0 <= k < |defaults| && defaults[k].col == c)
  {
    if defaults != [] {
      var n := |defaults| - 1;
      var init := defaults[..n];
      DefaultFieldsFill(init, fields, clock);
      var rest, r := DefaultFields(init, fields, clock), DefaultFields(defaults, fields, clock);
      assert forall k :: 0 <= k < n ==> init[k] == defaults[k];
      forall k | 0 <= k < n && defaults[k].col !in fields ensures Fills(defaults[k], r, clock) {
        assert Fills(init[k], rest, clock);
      }
      assert defaults[n].col in rest ==> defaults[n].col in fields;
    }
  }

  lemma DefaultedFillsIn(e: Entity, d: Draft, clock: Column -> int, newId: UUID)
    ensures FilledIn(e, d, Defaulted(e, d, clock, newId), clock, newId)
  {
    DefaultColumnsDiffer(e);
    hide Entity.Defaults;
    DefaultFieldsFill(e.Defaults(), d.fields, clock);
  }

  lemma DefaultsFit(e: Entity, k: nat)
    requires k < |e.Defaults()|
    ensures var d := e.Defaults()[k];
            && d.col != IdCol && e.Field(d.col).Some?
            && (d.Always? ==> Fits(e.Field(d.col).value, d.v))
            && (d.Clock? ==> e.Field(d.col) == Some(Time))
  {
    match e
    case Custody =>
    case Fleet =>
    case Member => MemberDefaultsFit(k);
    case Vehicle =>
  }

  lemma MemberDefaultsFit(k: nat)
    requires k < |Member.Defaults()|
    ensures var d := Member.Defaults()[k];
            && d.col != IdCol && Member.Field(d.col).Some?
            && (d.Always? ==> Fits(Member.Field(d.col).value, d.v))
            && (d.Clock? ==> Member.Field(d.col) == Some(Time))
  {
  }

  // A draft of the setters is still one after its defaults are filled in.
  lemma DefaultedIsTyped(e: Entity, d: Draft, clock: Column -> int, newId: UUID)
    requires Typed(e, d)
    ensures Typed(e, Defaulted(e, d, clock, newId))
  {
    hide Entity.Defaults, Entity.Field, Defaulted;
    DefaultedFillsIn(e, d, clock, newId);
    var after := Defaulted(e, d, clock, newId);
    forall c | c in after.fields
      ensures c != IdCol && e.Field(c).Some? && Fits(e.Field(c).value, after.fields[c])
    {
      if c !in d.fields {
        var k :| 0 <= k < |e.Defaults()| && e.Defaults()[k].col == c;
        DefaultsFit(e, k);
        assert Fills(e.Defaults()[k], after.fields, clock);
      }
    }
  }

  // ---------------------------------------------------------------- check()

  predicate IsSet(d: Draft, c: Column) {
    c in d.fields
  }

  predicate HasText(d: Draft, c: Column) {
    c in d.fields && d.fields[c] != TextV("")
  }

  // Rule by rule: a required column is there afterwards iff it was set or has a
  // default, and a column that was set has its value.
  lemma ColumnAfter(e: Entity, d: Draft, after: Draft, clock: Column -> int, newId: UUID, c: Column)
    requires FilledIn(e, d, after, clock, newId)
    ensures c in after.fields <==> c in d.fields || HasDefault(e, c)
    ensures c in d.fields ==> after.fields[c] == d.fields[c]
  {
    hide Entity.Defaults;
  }

  lemma FleetDefaults()
    ensures forall c :: HasDefault(Fleet, c) <==>
                        c in {TypeCol, FleetTypeCol, StatusCol, MetadataCol, CreatedAtCol, UpdatedAtCol}
  {
    var ds := Fleet.Defaults();
    assert ds[0].col == TypeCol && ds[1].col == FleetTypeCol && ds[2].col == StatusCol && ds[3].col == MetadataCol
           && ds[4].col == CreatedAtCol && ds[5].col == UpdatedAtCol;
  }

  /** A fleet passes its check, once its defaults are filled in, iff the caller has
      set the tenant, and a slug and a name that are not empty. */
  lemma FleetCheck(d: Draft, clock: Column -> int, newId: UUID)
    ensures Check(Fleet, Defaulted(Fleet, d, clock, newId)).None? <==>
            IsSet(d, TenantIdCol) && HasText(d, TenantSlugCol) && HasText(d, NameCol)
  {
    hide CheckRules, Defaulted, HasDefault, FilledIn;
    var after := Defaulted(Fleet, d, clock, newId);
    DefaultedFillsIn(Fleet, d, clock, newId);
    CheckFindsFirst(Fleet.Rules(), after);
    FleetDefaults();
    forall c ensures c in after.fields <==> c in d.fields || HasDefault(Fleet, c)
      ensures c in d.fields ==> after.fields[c] == d.fields[c]
    {
      ColumnAfter(Fleet, d, after, clock, newId, c);
    }
    if CheckRules(Fleet.Rules(), after).None? {
      var rules := Fleet.Rules();
      assert Violation(rules[0], after).None? && Violation(rules[1], after).None? && Violation(rules[2], after).None?
             && Violation(rules[3], after).None? && Violation(rules[4], after).None?;
    }
  }

  lemma CustodyDefaults()
    ensures forall c :: HasDefault(Custody, c) <==> c == OccurredAtCol
  {
    assert Custody.Defaults()[0].col == OccurredAtCol;
  }

  // A custody event: its shipment, the actor, the actor's name and the event type.
  lemma CustodyCheck(d: Draft, clock: Column -> int, newId: UUID)
    ensures Check(Custody, Defaulted(Custody, d, clock, newId)).None? <==>
            IsSet(d, ShipmentIdCol) && IsSet(d, ActorIdCol) && IsSet(d, ActorNameCol) && IsSet(d, EventTypeCol)
  {
    hide CheckRules, Defaulted, HasDefault, FilledIn;
    var after := Defaulted(Custody, d, clock, newId);
    DefaultedFillsIn(Custody, d, clock, newId);
    CheckFindsFirst(Custody.Rules(), after);
    CustodyDefaults();
    forall c ensures c in after.fields <==> c in d.fields || HasDefault(Custody, c)
      ensures c in d.fields ==> after.fields[c] == d.fields[c]
    {
      ColumnAfter(Custody, d, after, clock, newId, c);
    }
    if CheckRules(Custody.Rules(), after).None? {
      var rules := Custody.Rules();
      assert Violation(rules[0], after).None? && Violation(rules[1], after).None? && Violation(rules[2], after).None?
             && Violation(rules[3], after).None?;
    }
  }

  lemma VehicleDefaults()
    ensures forall c :: HasDefault(Vehicle, c) <==>
                        c in {StatusCol, ComplianceStatusCol, MetadataCol, CreatedAtCol, UpdatedAtCol}
  {
    var ds := Vehicle.Defaults();
    assert ds[0].col == StatusCol && ds[1].col == ComplianceStatusCol && ds[2].col == MetadataCol
           && ds[3].col == CreatedAtCol && ds[4].col == UpdatedAtCol;
  }

  // A vehicle: its tenant and fleet, and four texts that are not empty.
  lemma VehicleCheck(d: Draft, clock: Column -> int, newId: UUID)
    ensures Check(Vehicle, Defaulted(Vehicle, d, clock, newId)).None? <==>
            && IsSet(d, TenantIdCol) && IsSet(d, FleetIdCol)
            && HasText(d, VehicleTypeCol) && HasText(d, MakeCol) && HasText(d, ModelCol) && HasText(d, LicensePlateCol)
  {
    hide CheckRules, Defaulted, HasDefault, FilledIn;
    var after := Defaulted(Vehicle, d, clock, newId);
    DefaultedFillsIn(Vehicle, d, clock, newId);
    CheckFindsFirst(Vehicle.Rules(), after);
    VehicleDefaults();
    forall c ensures c in after.fields <==> c in d.fields || HasDefault(Vehicle, c)
      ensures c in d.fields ==> after.fields[c] == d.fields[c]
    {
      ColumnAfter(Vehicle, d, after, clock, newId, c);
    }
    if CheckRules(Vehicle.Rules(), after).None? {
      var rules := Vehicle.Rules();
      assert Violation(rules[0], after).None? && Violation(rules[1], after).None? && Violation(rules[2], after).None?
             && Violation(rules[3], after).None? && Violation(rules[4], after).None? && Violation(rules[5], after).None?
             && Violation(rules[6], after).None? && Violation(rules[7], after).None? && Violation(rules[8], after).None?
             && Violation(rules[9], after).None?;
    }
  }

  lemma MemberDefaults()
    ensures forall c :: c in {StatusCol, JoinedAtCol, MetadataCol, SpecializationTagsCol, HasColdStorageCol,
                              AverageRatingCol, TotalRatingsCol, CreatedAtCol, UpdatedAtCol, PayoutStatusCol} ==>
                          HasDefault(Member, c)
  {
    var ds := Member.Defaults();
    assert ds[0].col == StatusCol && ds[2].col == JoinedAtCol && ds[3].col == MetadataCol
           && ds[4].col == SpecializationTagsCol && ds[5].col == HasColdStorageCol && ds[6].col == AverageRatingCol
           && ds[7].col == TotalRatingsCol && ds[8].col == CreatedAtCol && ds[9].col == UpdatedAtCol
           && ds[11].col == PayoutStatusCol;
  }

  lemma MemberKeysHaveNone()
    ensures !HasDefault(Member, TenantIdCol) && !HasDefault(Member, FleetIdCol) && !HasDefault(Member, UserIdCol)
  {
  }

  lemma PayoutDefaults(d: Draft, after: Draft, clock: Column -> int, newId: UUID)
    requires FilledIn(Member, d, after, clock, newId)
    ensures PayoutMethodCol !in d.fields ==>
              PayoutMethodCol in after.fields && after.fields[PayoutMethodCol] == TextV("mpesa_b2c")
    ensures PayoutStatusCol !in d.fields ==>
              PayoutStatusCol in after.fields && after.fields[PayoutStatusCol] == TextV("active")
  {
    assert Member.Defaults()[10] == Always(PayoutMethodCol, TextV("mpesa_b2c"));
    assert Member.Defaults()[11] == Always(PayoutStatusCol, TextV("active"));
  }

  // The check of a member whose columns with a default are there.
  lemma MemberRules(after: Draft)
    requires forall c :: c in {StatusCol, JoinedAtCol, MetadataCol, SpecializationTagsCol, HasColdStorageCol,
                               AverageRatingCol, TotalRatingsCol, CreatedAtCol, UpdatedAtCol, PayoutStatusCol} ==>
                           c in after.fields
    ensures Check(Member, after).None? <==>
            && IsSet(after, TenantIdCol) && IsSet(after, FleetIdCol) && IsSet(after, UserIdCol)
            && Violation(OneOf(PayoutMethodCol, PAYOUT_METHODS), after).None?
            && Violation(OneOf(PayoutStatusCol, PAYOUT_STATUSES), after).None?
  {
    hide CheckRules;
    CheckFindsFirst(Member.Rules(), after);
    var rules := Member.Rules();
    assert rules[0] == Required(TenantIdCol) && rules[1] == Required(FleetIdCol) && rules[2] == Required(UserIdCol);
    assert rules[12] == OneOf(PayoutMethodCol, PAYOUT_METHODS) && rules[14] == OneOf(PayoutStatusCol, PAYOUT_STATUSES);
    hide PAYOUT_METHODS, PAYOUT_STATUSES;
  }

  predicate ValidPayout(d: Draft) {
    && (IsSet(d, PayoutMethodCol) ==>
          d.fields[PayoutMethodCol] in
          {TextV("mpesa_b2c"), TextV("paystack_bank"), TextV("paystack_mobile"), TextV("cash"),
           TextV("internal_wallet")})
    && (IsSet(d, PayoutStatusCol) ==> d.fields[PayoutStatusCol] in {TextV("active"), TextV("suspended")})
  }

  lemma PayoutRules(d: Draft)
    ensures ValidPayout(d) <==>
            && Violation(OneOf(PayoutMethodCol, PAYOUT_METHODS), d).None?
            && Violation(OneOf(PayoutStatusCol, PAYOUT_STATUSES), d).None?
  {
    assert PAYOUT_METHODS[0] == "mpesa_b2c" && PAYOUT_METHODS[1] == "paystack_bank"
           && PAYOUT_METHODS[2] == "paystack_mobile" && PAYOUT_METHODS[3] == "cash"
           && PAYOUT_METHODS[4] == "internal_wallet";
    assert PAYOUT_STATUSES[0] == "active" && PAYOUT_STATUSES[1] == "suspended";
  }

  /** A fleet member: its tenant, fleet and user, and if the payout method or status
      is set it must be one of the names of its enum. */
  lemma MemberCheck(d: Draft, clock: Column -> int, newId: UUID)
    ensures Check(Member, Defaulted(Member, d, clock, newId)).None? <==>
            IsSet(d, TenantIdCol) && IsSet(d, FleetIdCol) && IsSet(d, UserIdCol) && ValidPayout(d)
  {
    hide CheckRules, Defaulted, HasDefault, FilledIn, Violation, Entity.Rules, PAYOUT_METHODS, PAYOUT_STATUSES, Check;
    var after := Defaulted(Member, d, clock, newId);
    DefaultedFillsIn(Member, d, clock, newId);
    MemberDefaults();
    MemberKeysHaveNone();
    PayoutDefaults(d, after, clock, newId);
    forall c ensures c in after.fields <==> c in d.fields || HasDefault(Member, c)
      ensures c in d.fields ==> after.fields[c] == d.fields[c]
    {
      ColumnAfter(Member, d, after, clock, newId, c);
    }
    MemberRules(after);
    PayoutRules(after);
  }

  // ---------------------------------------------------------------- createSpec()

  // The zero value of its field: nil for a pointer and a document, and for the other
  // kinds the zero of the type.
  ghost predicate IsZero(k: Kind, v: Value) {
    && (v.Nil? <==> k.UuidPtr? || k.FloatPtr? || k.IntPtr? || k.TimePtr? || k.Json?)
    && (v.Nil? || Fits(k, v))
    && v in {Nil, UuidV(0), TextV(""), FloatV(0.0), IntV(0), BoolV(false), TimeV(0)}
  }

  /** Every field the caller set is sent and handed back, with its value; the fields
      of the node that were not set are zero; and nothing else is sent. */
  lemma CreateSpecIs(e: Entity, d: Draft)
    requires Typed(e, d)
    ensures CreateSpec(e, d) == Spec(d.id, d.fields)
    ensures var n := CreateNode(e, d);
            && n.id == (if d.id.Some? then d.id.value else ZERO_UUID) && n.selected == map[]
            && (forall c :: c in n.fields <==> c in e.Columns() && c != IdCol)
            && (forall c :: c in n.fields ==>
                  && e.Field(c).Some?
                  && if c in d.fields then n.fields[c] == d.fields[c] else IsZero(e.Field(c).value, n.fields[c]))
  {
    hide Entity.Field, Entity.Columns, Entity.Scan;
    forall c ensures e.Field(c).Some? <==> c in e.Columns() {
      SwitchesAgree(e, c);
    }
    assert CreateSpec(e, d).cells == d.fields;
  }
}
