/** cmd/seed-delivery-zones: pushing a preset of delivery areas into the zones of
    one tenant without losing what its admins have edited. */
module Zones {

  import opened Strings

  // What the two kinds of writes set; `shape` is the rest of the settings.
  datatype Area = Area(name: string, status: string, fee: real, free: bool, shape: int)

  datatype Zone = Zone(zoneType: string, status: string, color: string, fee: real, free: bool, shape: int,
                       source: string)

  // The zones of the tenant; (tenant_id, name) is unique.
  type ZoneTable = map<string, Zone>

  function ColorFor(a: Area): string {
    if a.free then "#16a34a" else if a.fee >= 500.0 then "#dc2626" else if a.fee >= 200.0 then "#f59e0b" else "#3b82f6"
  }

  // CreateZone.
  function Created(a: Area): Zone {
    Zone("delivery", if a.status == "" then "active" else a.status, ColorFor(a), a.fee, a.free, a.shape,
         "seed-delivery-zones")
  }

  // UpdateZone, which leaves the type of a zone alone.
  function Patched(z: Zone, a: Area): Zone {
    Created(a).(zoneType := z.zoneType)
  }

  /** The zone has what its area says: fee, free flag and settings, the area's status
      or else active, and the color of its price; nothing of what it had before but its type. */
  ghost predicate IsZoneOf(z: Zone, zoneType: string, a: Area) {
    && z.zoneType == zoneType && z.fee == a.fee && z.free == a.free && z.shape == a.shape
    && z.source == "seed-delivery-zones"
    && (a.status != "" ==> z.status == a.status)
    && (a.status == "" ==> z.status == "active")
    && (a.free ==> z.color == "#16a34a")
    && (!a.free && a.fee >= 500.0 ==> z.color == "#dc2626")
    && (!a.free && 200.0 <= a.fee < 500.0 ==> z.color == "#f59e0b")
    && (!a.free && a.fee < 200.0 ==> z.color == "#3b82f6")
  }

  lemma WritesAreZonesOf(z: Zone, a: Area)
    ensures IsZoneOf(Created(a), "delivery", a) && IsZoneOf(Patched(z, a), z.zoneType, a)
  {
  }

  // One round of the loop of seedZones.
  function Placed(zones: ZoneTable, a: Area, dryRun: bool, overwrite: bool): ZoneTable {
    if dryRun || (a.name in zones && !overwrite) then zones
    else zones[a.name := if a.name in zones then Patched(zones[a.name], a) else Created(a)]
  }

  function Seeded(zones: ZoneTable, areas: seq<Area>, dryRun: bool, overwrite: bool): ZoneTable {
    if areas == [] then zones
    else Placed(Seeded(zones, areas[..|areas| - 1], dryRun, overwrite), areas[|areas| - 1], dryRun, overwrite)
  }

  class Tenant {
    var zones: ZoneTable

    /** seedZones, over a database that executes `healthy` areas and then fails. */
    method SeedZones(areas: seq<Area>, dryRun: bool, overwrite: bool, healthy: nat) returns (done: nat)
      modifies this
      ensures done == if healthy < |areas| then healthy else |areas|
      ensures zones == Seeded(old(zones), areas[..done], dryRun, overwrite)
    {
      for i := 0 to |areas|
        invariant i <= healthy && zones == Seeded(old(zones), areas[..i], dryRun, overwrite)
      {
        if i == healthy {
          return i;
        }
        var a := areas[i];
        assert areas[..i + 1][..i] == areas[..i];
        if a.name in zones {
          if !overwrite {
            continue;
          }
          if dryRun {
            continue;
          }
          zones := zones[a.name := Patched(zones[a.name], a)];
        } else {
          if dryRun {
            continue;
          }
          zones := zones[a.name := Created(a)];
        }
      }
      return |areas|;
    }
  }

  function Names(areas: seq<Area>): set<string> {
    set i | 0 <= i < |areas| :: areas[i].name
  }

  lemma NamesSplit(areas: seq<Area>)
    requires areas != []
    ensures Names(areas) == Names(areas[..|areas| - 1]) + {areas[|areas| - 1].name}
  {
    var init, last := areas[..|areas| - 1], areas[|areas| - 1];
    assert areas == init + [last];
    forall x ensures x in Names(areas) <==> x in Names(init) || x == last.name {
      if x in Names(init) {
        var i :| 0 <= i < |init| && init[i].name == x;
        assert areas[i].name == x;
      }
      if x in Names(areas) {
        var i :| 0 <= i < |areas| && areas[i].name == x;
        assert i < |init| ==> init[i].name == x;
      }
    }
  }

  /** A dry run changes nothing in any mode. Otherwise exactly the areas whose name
      is absent become new zones, in any mode, and no zone disappears. */
  lemma {:induction false} NamesAfterSeeding(zones: ZoneTable, areas: seq<Area>, dryRun: bool, overwrite: bool)
    ensures var after := Seeded(zones, areas, dryRun, overwrite);
            && (dryRun ==> after == zones)
            && (!dryRun ==> after.Keys == zones.Keys + Names(areas))
  {
    if areas != [] {
      NamesAfterSeeding(zones, areas[..|areas| - 1], dryRun, overwrite);
      NamesSplit(areas);
    }
  }

  // The position of the first area with this name.
  function FirstAt(areas: seq<Area>, name: string): (i: nat)
    requires name in Names(areas)
    ensures i < |areas| && areas[i].name == name && forall j :: 0 <= j < i ==> areas[j].name != name
  {
    NamesSplit(areas);
    if name in Names(areas[..|areas| - 1]) then FirstAt(areas[..|areas| - 1], name) else |areas| - 1
  }

  // The position of the last area with this name.
  function FinalAt(areas: seq<Area>, name: string): (i: nat)
    requires name in Names(areas)
    ensures i < |areas| && areas[i].name == name && forall j :: i < j < |areas| ==> areas[j].name != name
  {
    NamesSplit(areas);
    if areas[|areas| - 1].name == name then |areas| - 1 else FinalAt(areas[..|areas| - 1], name)
  }

  /** Without overwrite every zone that exists keeps its value, and a new one is the
      first area of its name. */
  lemma {:induction false} AdminEditsWin(zones: ZoneTable, areas: seq<Area>, name: string)
    ensures var after := Seeded(zones, areas, false, false);
            && (name in zones ==> name in after && after[name] == zones[name])
            && (name !in zones && name in Names(areas) ==>
                  && name in after && after[name] == Created(areas[FirstAt(areas, name)])
                  && IsZoneOf(after[name], "delivery", areas[FirstAt(areas, name)]))
            && (name !in zones && name !in Names(areas) ==> name !in after)
  {
    hide Created, IsZoneOf;
    if areas != [] {
      AdminEditsWin(zones, areas[..|areas| - 1], name);
      NamesSplit(areas);
      if name in Names(areas) && name !in zones {
        WritesAreZonesOf(Created(areas[0]), areas[FirstAt(areas, name)]);
      }
    }
  }

  /** With overwrite a zone that has an area is the last area of its name, in its
      old type; one that has none keeps its value. */
  lemma {:induction false} OverwriteReplaces(zones: ZoneTable, areas: seq<Area>, name: string)
    ensures var after := Seeded(zones, areas, false, true);
            && (name in Names(areas) ==>
                  && name in after
                  && after[name] ==
                     (if name in zones then Patched(zones[name], areas[FinalAt(areas, name)])
                      else Created(areas[FinalAt(areas, name)]))
                  && IsZoneOf(after[name], if name in zones then zones[name].zoneType else "delivery",
                              areas[FinalAt(areas, name)]))
            && (name !in Names(areas) ==>
                  (name in after <==> name in zones) && (name in zones ==> after[name] == zones[name]))
  {
    if areas != [] {
      OverwriteReplaces(zones, areas[..|areas| - 1], name);
      NamesSplit(areas);
    }
  }

  /** Running again after a complete or an interrupted run, in either mode, ends
      where one run ends; so a further complete run changes nothing. */
  lemma ResumesAndIsIdempotent(zones: ZoneTable, areas: seq<Area>, k: nat, overwrite: bool)
    requires k <= |areas|
    ensures Seeded(Seeded(zones, areas[..k], false, overwrite), areas, false, overwrite) ==
            Seeded(zones, areas, false, overwrite)
  {
    hide Seeded, Created, Patched, FirstAt, FinalAt, IsZoneOf;
    var some := Seeded(zones, areas[..k], false, overwrite);
    var a, b := Seeded(some, areas, false, overwrite), Seeded(zones, areas, false, overwrite);
    NamesAfterSeeding(zones, areas[..k], false, overwrite);
    NamesAfterSeeding(some, areas, false, overwrite);
    NamesAfterSeeding(zones, areas, false, overwrite);
    PrefixNames(areas, k);
    forall name | name in a ensures a[name] == b[name] {
      if overwrite {
        OverwriteReplaces(zones, areas[..k], name);
        OverwriteReplaces(some, areas, name);
        OverwriteReplaces(zones, areas, name);
        PatchTwice();
      } else {
        AdminEditsWin(zones, areas[..k], name);
        AdminEditsWin(some, areas, name);
        AdminEditsWin(zones, areas, name);
        if name in Names(areas[..k]) {
          FirstInPrefix(areas, k, name);
        }
      }
    }
  }

  lemma PatchTwice()
    ensures forall z, a, b :: Patched(Patched(z, a), b) == Patched(z, b)
    ensures forall a, b :: Patched(Created(a), b) == Created(b)
  {
  }

  lemma PrefixNames(areas: seq<Area>, k: nat)
    requires k <= |areas|
    ensures Names(areas[..k]) <= Names(areas)
  {
    forall x | x in Names(areas[..k]) ensures x in Names(areas) {
      var i :| 0 <= i < k && areas[..k][i].name == x;
      assert areas[i].name == x;
    }
  }

  lemma {:induction false} FirstInPrefix(areas: seq<Area>, k: nat, name: string)
    requires k <= |areas| && name in Names(areas[..k])
    ensures name in Names(areas) && FirstAt(areas, name) == FirstAt(areas[..k], name)
  {
    PrefixNames(areas, k);
    if k < |areas| {
      var init := areas[..|areas| - 1];
      assert init[..k] == areas[..k];
      FirstInPrefix(init, k, name);
    } else {
      assert areas[..k] == areas;
    }
  }

  // ---------------------------------------------------------------- filterAreas

  // The trimmed, lower-cased, non-empty names; `lower` is strings.ToLower.
  function Wanted(names: string, lower: string -> string): set<string> {
    var parts := Split(names, ',');
    set i | 0 <= i < |parts| && lower(TrimSpace(parts[i])) != "" :: lower(TrimSpace(parts[i]))
  }

  function Kept(areas: seq<Area>, want: set<string>, lower: string -> string): seq<Area> {
    if areas == [] then []
    else
      Kept(areas[..|areas| - 1], want, lower)
      + if lower(areas[|areas| - 1].name) in want then [areas[|areas| - 1]] else []
  }

  method FilterAreas(areas: seq<Area>, names: string, lower: string -> string) returns (out: seq<Area>)
    ensures out == Kept(areas, Wanted(names, lower), lower)
  {
    hide Split, TrimSpace;
    var want: set<string> := {};
    var parts := Split(names, ',');
    for i := 0 to |parts|
      invariant want == set k | 0 <= k < i && lower(TrimSpace(parts[k])) != "" :: lower(TrimSpace(parts[k]))
    {
      var n := lower(TrimSpace(parts[i]));
      if n != "" {
        want := want + {n};
      }
    }
    out := [];
    for i := 0 to |areas|
      invariant out == Kept(areas[..i], want, lower)
    {
      assert areas[..i + 1][..i] == areas[..i];
      if lower(areas[i].name) in want {
        out := out + [areas[i]];
      }
    }
    assert areas[..|areas|] == areas;
  }

  // One entry of the list: a name with white space around it.
  datatype Entry = Entry(before: string, name: string, after: string) {
    predicate Valid() {
      && AllSpace(before) && AllSpace(after) && ',' !in name
      && (name == "" || (!IsSpace(name[0]) && !IsSpace(name[|name| - 1])))
    }

    function Text(): string {
      before + name + after
    }
  }

  // The entries, separated by commas.
  function Listed(entries: seq<Entry>): string {
    if entries == [] then ""
    else if |entries| == 1 then entries[0].Text() else entries[0].Text() + [','] + Listed(entries[1..])
  }

  lemma NoCommaInEntry(x: Entry)
    requires x.Valid()
    ensures ',' !in x.Text()
  {
    var text := x.Text();
    forall i | 0 <= i < |text| ensures text[i] != ',' {
      assert text[i] in x.before || text[i] in x.name || text[i] in x.after;
    }
  }

  lemma {:induction false} SplitListed(entries: seq<Entry>)
    requires entries != [] && forall k :: 0 <= k < |entries| ==> entries[k].Valid()
    ensures |Split(Listed(entries), ',')| == |entries|
    ensures forall k :: 0 <= k < |entries| ==> Split(Listed(entries), ',')[k] == entries[k].Text()
  {
    hide Split, Entry.Text, Entry.Valid;
    NoCommaInEntry(entries[0]);
    if |entries| == 1 {
      SplitOne(entries[0].Text(), ',');
    } else {
      SplitListed(entries[1..]);
      SplitFirst(entries[0].Text(), Listed(entries[1..]), ',');
    }
  }

  /** The wanted names are those of the entries, lower-cased, without the white space
      around them and without the empty ones. */
  lemma WantedAreTheNames(entries: seq<Entry>, lower: string -> string, w: string)
    requires entries != [] && forall k :: 0 <= k < |entries| ==> entries[k].Valid()
    ensures w in Wanted(Listed(entries), lower) <==>
            w != "" && exists k :: 0 <= k < |entries| && lower(entries[k].name) == w
  {
    hide Wanted, IsPart, Entry.Valid, Listed;
    var names := Listed(entries);
    InWanted(names, lower, w);
    forall k: nat ensures IsPart(names, k, lower, w) <==>
                          k < |entries| && w != "" && lower(entries[k].name) == w
    {
      PartIs(entries, k, lower, w);
    }
  }

  // Part k of the list is w, once it is trimmed and lower-cased.
  ghost predicate IsPart(names: string, k: nat, lower: string -> string, w: string) {
    k < |Split(names, ',')| && w != "" && lower(TrimSpace(Split(names, ',')[k])) == w
  }

  lemma InWanted(names: string, lower: string -> string, w: string)
    ensures w in Wanted(names, lower) <==> exists k: nat :: IsPart(names, k, lower, w)
  {
    hide Split, TrimSpace;
    var parts := Split(names, ',');
    if w in Wanted(names, lower) {
      var k: nat :| k < |parts| && lower(TrimSpace(parts[k])) != "" && lower(TrimSpace(parts[k])) == w;
      assert IsPart(names, k, lower, w);
    }
    if k: nat :| IsPart(names, k, lower, w) {
      assert lower(TrimSpace(parts[k])) in Wanted(names, lower);
    }
  }

  lemma PartIs(entries: seq<Entry>, k: nat, lower: string -> string, w: string)
    requires entries != [] && forall k :: 0 <= k < |entries| ==> entries[k].Valid()
    ensures IsPart(Listed(entries), k, lower, w) <==> k < |entries| && w != "" && lower(entries[k].name) == w
  {
    hide Split, TrimSpace, Listed;
    SplitListed(entries);
    if k < |entries| {
      assert entries[k].Valid();
      TrimSpaceDrops(entries[k].before, entries[k].name, entries[k].after);
    }
  }

  // Every list is a list of such entries.
  lemma {:induction false} EveryListHasEntries(names: string) returns (entries: seq<Entry>)
    ensures entries != [] && Listed(entries) == names
    ensures forall k :: 0 <= k < |entries| ==> entries[k].Valid()
    decreases |names|
  {
    hide Entry.Text, Entry.Valid;
    if i :| 0 <= i < |names| && names[i] == ',' && forall j :: 0 <= j < i ==> names[j] != ',' {
      var first := EntryOf(names[..i]);
      var rest := EveryListHasEntries(names[i + 1..]);
      entries := [first] + rest;
      assert names == names[..i] + [','] + names[i + 1..];
      assert entries[1..] == rest;
    } else {
      NoFirstComma(names, |names|);
      var only := EntryOf(names);
      entries := [only];
    }
  }

  lemma {:induction false} NoFirstComma(s: string, n: nat)
    requires n <= |s|
    requires !exists i :: 0 <= i < |s| && s[i] == ',' && forall j :: 0 <= j < i ==> s[j] != ','
    ensures ',' !in s[..n]
  {
    if n > 0 {
      NoFirstComma(s, n - 1);
      assert s[..n] == s[..n - 1] + [s[n - 1]];
      assert forall j :: 0 <= j < n - 1 ==> s[..n - 1][j] == s[j];
    }
  }

  lemma {:induction false} EntryOf(s: string) returns (x: Entry)
    requires ',' !in s
    ensures x.Valid() && x.Text() == s
    decreases |s|
  {
    hide IsSpace;
    if s != "" && IsSpace(s[0]) {
      x := EntryOf(s[1..]);
      assert s == [s[0]] + s[1..];
      x := x.(before := [s[0]] + x.before);
    } else if s != "" && IsSpace(s[|s| - 1]) {
      x := EntryOf(s[..|s| - 1]);
      assert s == s[..|s| - 1] + [s[|s| - 1]];
      x := x.(after := x.after + [s[|s| - 1]]);
    } else {
      x := Entry("", s, "");
    }
  }

  /** filterAreas keeps exactly the areas that are named in the list, without regard
      to case or to the white space around a name. */
  lemma KeptAreNamed(areas: seq<Area>, entries: seq<Entry>, lower: string -> string, a: Area)
    requires entries != [] && forall k :: 0 <= k < |entries| ==> entries[k].Valid()
    ensures a in Kept(areas, Wanted(Listed(entries), lower), lower) <==>
            && a in areas && lower(a.name) != ""
            && exists k :: 0 <= k < |entries| && lower(entries[k].name) == lower(a.name)
  {
    hide Wanted, Listed, Entry.Valid;
    WantedAreTheNames(entries, lower, lower(a.name));
    KeptIff(areas, Wanted(Listed(entries), lower), lower, a);
  }

  lemma {:induction false} KeptIff(areas: seq<Area>, want: set<string>, lower: string -> string, a: Area)
    ensures a in Kept(areas, want, lower) <==> a in areas && lower(a.name) in want
  {
    if areas != [] {
      var init, last := areas[..|areas| - 1], areas[|areas| - 1];
      KeptIff(init, want, lower, a);
      assert areas == init + [last];
    }
  }

  // The positions of the wanted areas in the preset.
  function Positions(areas: seq<Area>, want: set<string>, lower: string -> string): seq<nat> {
    if areas == [] then []
    else
      Positions(areas[..|areas| - 1], want, lower)
      + if lower(areas[|areas| - 1].name) in want then [|areas| - 1] else []
  }

  /** Every position that is wanted, and no other. */
  lemma {:induction false} PositionsAreWanted(areas: seq<Area>, want: set<string>, lower: string -> string, i: nat)
    ensures i in Positions(areas, want, lower) <==> i < |areas| && lower(areas[i].name) in want
  {
    if areas != [] {
      PositionsAreWanted(areas[..|areas| - 1], want, lower, i);
    }
  }

  /** What is kept is the order-preserving subsequence of the areas at these
      positions. */
  lemma {:induction false} KeptInOrder(areas: seq<Area>, want: set<string>, lower: string -> string)
    ensures var from := Positions(areas, want, lower);
            var kept := Kept(areas, want, lower);
            && |from| == |kept|
            && (forall k :: 0 <= k < |kept| ==> from[k] < |areas| && areas[from[k]] == kept[k])
            && (forall j, k :: 0 <= j < k < |kept| ==> from[j] < from[k])
  {
    if areas != [] {
      KeptInOrder(areas[..|areas| - 1], want, lower);
    }
  }

  /** Pushing a corrected pin touches nothing else: with a filter, in any mode, a
      zone whose name is not wanted keeps its value, and none is created. */
  lemma OnlyWantedZonesChange(zones: ZoneTable, areas: seq<Area>, want: set<string>, lower: string -> string,
                              dryRun: bool, overwrite: bool, name: string)
    requires lower(name) !in want
    ensures var after := Seeded(zones, Kept(areas, want, lower), dryRun, overwrite);
            (name in after <==> name in zones) && (name in zones ==> after[name] == zones[name])
  {
    hide Seeded, Kept;
    var kept := Kept(areas, want, lower);
    var from := Positions(areas, want, lower);
    KeptInOrder(areas, want, lower);
    forall i | 0 <= i < |kept| ensures kept[i].name != name {
      PositionsAreWanted(areas, want, lower, from[i]);
    }
    NamesAfterSeeding(zones, kept, dryRun, overwrite);
    if !dryRun {
      if overwrite {
        OverwriteReplaces(zones, kept, name);
      } else {
        AdminEditsWin(zones, kept, name);
      }
    }
  }
}
