/**
 * The dashboard's room status panel (frontend/src/components/dashboard/RoomStatusGrid.tsx):
 * the style and label of each unit status, the counts in the panel header, and one tile per
 * unit, or an empty state when there are no units. A missing guest name is "".
 */
module RoomStatus {
  const AVAILABLE := "available"
  const OCCUPIED := "occupied"
  const CLEANING := "cleaning"
  const MAINTENANCE := "maintenance"

  /** The guest caption shown on an occupied unit without a guest name. */
  const GUEST := "ضيف"

  datatype Room = Room(id: string, unitNumber: string, status: string, guestName: string)

  datatype Tone = Emerald | Blue | Amber | Rose | Gray

  datatype Icon = Bed | Person | Sparkles | Wrench

  datatype StatusStyle = StatusStyle(tone: Tone, labelText: string, icon: Icon)

  predicate IsKnown(status: string) {
    status in {AVAILABLE, OCCUPIED, CLEANING, MAINTENANCE}
  }

  /** `getStatusStyle`: each known status has its own tone and Arabic label; any other status shows itself in grey. */
  function StyleOf(status: string): (s: StatusStyle)
    ensures s.labelText == status <==> !IsKnown(status)
    ensures s.tone == Gray <==> !IsKnown(status)
    ensures s.icon == Bed <==> status == AVAILABLE || !IsKnown(status)
    ensures status == OCCUPIED ==> s.icon == Person && s.tone == Blue
  {
    if status == AVAILABLE then StatusStyle(Emerald, "متاح", Bed)
    else if status == OCCUPIED then StatusStyle(Blue, "مشغول", Person)
    else if status == CLEANING then StatusStyle(Amber, "تنظيف", Sparkles)
    else if status == MAINTENANCE then StatusStyle(Rose, "صيانة", Wrench)
    else StatusStyle(Gray, status, Bed)
  }

  /** No two statuses share a style: the tile tells the status apart. */
  lemma StylesDistinguishStatuses(a: string, b: string)
    requires a != b
    ensures StyleOf(a) != StyleOf(b)
  {
  }

  // The header counts.

  /** The units whose status is one of `statuses`. */
  function Count(units: seq<Room>, statuses: set<string>): (n: nat)
    ensures n <= |units|
    ensures n == |units| <==> forall i :: 0 <= i < |units| ==> units[i].status in statuses
    ensures n == 0 <==> forall i :: 0 <= i < |units| ==> units[i].status !in statuses
  {
    if units == [] then 0
    else
      var rest := Count(units[1..], statuses);
      assert forall i :: 1 <= i < |units| ==> units[i] == units[1..][i - 1];
      (if units[0].status in statuses then 1 else 0) + rest
  }

  /** The units whose status has no style of its own. */
  function CountUnknown(units: seq<Room>): (n: nat)
    ensures n <= |units|
    ensures n == 0 <==> forall i :: 0 <= i < |units| ==> IsKnown(units[i].status)
  {
    if units == [] then 0
    else
      var rest := CountUnknown(units[1..]);
      assert forall i :: 1 <= i < |units| ==> units[i] == units[1..][i - 1];
      (if IsKnown(units[0].status) then 0 else 1) + rest
  }

  /** "not ready" counts units being cleaned together with units under maintenance. */
  datatype Stats = Stats(total: nat, available: nat, occupied: nat, notReady: nat)

  function StatsOf(units: seq<Room>): (s: Stats)
    ensures s.total == |units|
    ensures s.available == Count(units, {AVAILABLE}) && s.occupied == Count(units, {OCCUPIED})
    ensures s.notReady == Count(units, {MAINTENANCE, CLEANING})
    ensures s.available <= s.total && s.occupied <= s.total && s.notReady <= s.total
  {
    Stats(|units|, Count(units, {AVAILABLE}), Count(units, {OCCUPIED}), Count(units, {MAINTENANCE, CLEANING}))
  }

  /** Every unit falls in exactly one of the header's counts or has a status of its own. */
  lemma {:induction false} StatsPartition(units: seq<Room>)
    ensures StatsOf(units).available + StatsOf(units).occupied + StatsOf(units).notReady + CountUnknown(units) == |units|
  {
    if units != [] {
      StatsPartition(units[1..]);
    }
  }

  /** The header's three counts add up to the number of units exactly when every status is known. */
  lemma CountsCoverAllIffKnown(units: seq<Room>)
    ensures StatsOf(units).available + StatsOf(units).occupied + StatsOf(units).notReady == |units|
      <==> forall i :: 0 <= i < |units| ==> IsKnown(units[i].status)
  {
    StatsPartition(units);
  }

  // The grid.

  /** A unit's tile: the hover title is the guest name or else the label; occupied units carry a guest caption. */
  datatype Tile = Tile(key: string, number: string, style: StatusStyle, title: string, caption: string, hasCaption: bool)

  function TileOf(r: Room): (t: Tile)
    ensures t.key == r.id && t.number == r.unitNumber && t.style == StyleOf(r.status)
    ensures t.title == (if r.guestName != "" then r.guestName else StyleOf(r.status).labelText)
    ensures t.hasCaption <==> r.status == OCCUPIED
    ensures t.hasCaption ==> t.caption == (if r.guestName != "" then r.guestName else GUEST) && t.caption != ""
  {
    var style := StyleOf(r.status);
    var title := if r.guestName != "" then r.guestName else style.labelText;
    if r.status == OCCUPIED then Tile(r.id, r.unitNumber, style, title, if r.guestName != "" then r.guestName else GUEST, true)
    else Tile(r.id, r.unitNumber, style, title, "", false)
  }

  datatype Body = EmptyState | Grid(tiles: seq<Tile>)

  datatype Panel = Panel(stats: Stats, body: Body)

  /** The panel: the counts, then either the empty state or one tile per unit in the given order. */
  function Render(units: seq<Room>): (p: Panel)
    ensures p.stats == StatsOf(units)
    ensures p.body == EmptyState <==> units == []
    ensures p.body.Grid? ==> (|p.body.tiles| == |units| &&
      forall i :: 0 <= i < |units| ==> p.body.tiles[i].key == units[i].id && p.body.tiles[i].style == StyleOf(units[i].status))
    ensures p.body.Grid? ==> forall i :: 0 <= i < |units| ==> p.body.tiles[i] == TileOf(units[i])
  {
    if |units| == 0 then Panel(StatsOf(units), EmptyState)
    else Panel(StatsOf(units), Grid(seq(|units|, i requires 0 <= i < |units| => TileOf(units[i]))))
  }
}
