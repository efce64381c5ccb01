/** The destination catalogue (backend/src/controllers/destinationController.ts).
    A destination stores its best months as JSON text; here the stored text
    is either a list of month names (what the handlers themselves write) or
    text that does not parse as one (a row written by other means). Reading
    a row parses that text, and a row that does not parse makes the read
    fail. Writes need the operations gate (ADMIN or OPS). */
module DestinationController {
  import opened Wrappers
  import Text
  import AdminMiddleware

  /** The stored `bestMonths` text. */
  datatype MonthsJson = Months(list: seq<string>) | Unparseable(raw: string)

  datatype Destination = Destination(
    id: string,
    name: string,
    description: string,
    durationDays: int,
    bestMonths: MonthsJson,
    difficulty: string,
    status: string,
    imageUrl: Option<string>)

  /** A destination as the handlers reply with it: `bestMonths` parsed. */
  datatype DestinationView = DestinationView(
    id: string,
    name: string,
    description: string,
    durationDays: int,
    bestMonths: seq<string>,
    difficulty: string,
    status: string,
    imageUrl: Option<string>)

  predicate Parses(d: Destination) {
    d.bestMonths.Months?
  }

  /** `{ ...dest, bestMonths: JSON.parse(dest.bestMonths) }`. */
  function View(d: Destination): (v: DestinationView)
    requires Parses(d)
    ensures v.id == d.id && v.name == d.name && v.bestMonths == d.bestMonths.list && v.status == d.status
    ensures v.description == d.description && v.durationDays == d.durationDays
    ensures v.difficulty == d.difficulty && v.imageUrl == d.imageUrl
  {
    DestinationView(d.id, d.name, d.description, d.durationDays, d.bestMonths.list, d.difficulty, d.status,
                    d.imageUrl)
  }

  function NameOf(d: Destination): string { d.name }
  function ViewName(v: DestinationView): string { v.name }

  /** The `map` over a row list: the views in the same order when every row
      parses, a failure as soon as one does not. */
  function ParseAll(xs: seq<Destination>): (r: Option<seq<DestinationView>>)
    ensures r.Some? <==> forall i :: 0 <= i < |xs| ==> Parses(xs[i])
    ensures r.Some? ==> |r.value| == |xs| && forall i :: 0 <= i < |xs| ==> r.value[i] == View(xs[i])
  {
    if xs == [] then Some([])
    else if !Parses(xs[0]) then None
    else
      var rest := ParseAll(xs[1..]);
      if rest.None? then None else Some([View(xs[0])] + rest.value)
  }

  /** Parsing keeps names, so a list ordered by name stays ordered. */
  lemma ParseAllKeepsOrder(xs: seq<Destination>)
    requires Text.SortedByKey(xs, NameOf) && ParseAll(xs).Some?
    ensures Text.SortedByKey(ParseAll(xs).value, ViewName)
  {
    var vs := ParseAll(xs).value;
    forall i, j | 0 <= i < j < |vs| ensures Text.TextLe(ViewName(vs[i]), ViewName(vs[j])) {
      assert vs[i] == View(xs[i]) && vs[j] == View(xs[j]);
    }
  }

  /** The fields `updateDestination` may change; `None` is a field left out
      of the request. */
  datatype DestinationPatch = DestinationPatch(
    name: Option<string>,
    description: Option<string>,
    durationDays: Option<int>,
    bestMonths: Option<seq<string>>,
    difficulty: Option<string>,
    status: Option<string>,
    imageUrl: Option<string>)

  /** The row after the patch: each supplied field replaced (a supplied month
      list stored as a list), all others as they were. */
  function Patched(d: Destination, patch: DestinationPatch): (r: Destination)
    ensures r.id == d.id
    ensures r.name == (if patch.name.Some? then patch.name.value else d.name)
    ensures r.description == (if patch.description.Some? then patch.description.value else d.description)
    ensures r.durationDays == (if patch.durationDays.Some? then patch.durationDays.value else d.durationDays)
    ensures r.bestMonths == (if patch.bestMonths.Some? then Months(patch.bestMonths.value) else d.bestMonths)
    ensures r.difficulty == (if patch.difficulty.Some? then patch.difficulty.value else d.difficulty)
    ensures r.status == (if patch.status.Some? then patch.status.value else d.status)
    ensures r.imageUrl == (if patch.imageUrl.Some? then patch.imageUrl else d.imageUrl)
  {
    Destination(d.id, patch.name.GetOr(d.name), patch.description.GetOr(d.description),
                patch.durationDays.GetOr(d.durationDays),
                if patch.bestMonths.Some? then Months(patch.bestMonths.value) else d.bestMonths,
                patch.difficulty.GetOr(d.difficulty), patch.status.GetOr(d.status),
                if patch.imageUrl.Some? then patch.imageUrl else d.imageUrl)
  }

  /** An empty patch changes nothing, and applying a patch twice is the same
      as applying it once. */
  lemma PatchLaws(d: Destination, patch: DestinationPatch)
    ensures Patched(d, DestinationPatch(None, None, None, None, None, None, None)) == d
    ensures Patched(Patched(d, patch), patch) == Patched(d, patch)
  {
  }

  /** `status || 'available'`: an absent or empty status means available. */
  function StatusOrDefault(status: Option<string>): (s: string)
    ensures Present(status) ==> s == status.value
    ensures !Present(status) ==> s == "available"
    ensures s != ""
  {
    if Present(status) then status.value else "available"
  }

  /** The destination table. */
  class DestinationTable {
    var rows: map<string, Destination>

    ghost predicate Valid()
      reads this
    {
      forall k :: k in rows ==> rows[k].id == k
    }

    constructor ()
      ensures Valid() && rows == map[]
    {
      rows := map[];
    }

    /** `getDestinationById`. */
    function DestinationById(id: string): (r: Response<DestinationView>)
      reads this
      ensures r.Success? <==> id in rows && Parses(rows[id])
      ensures r.Success? ==> r.status == 200 && r.value == View(rows[id]) && r.value.id == rows[id].id
      ensures id !in rows ==> r == Failure(404, "Destination not found")
      ensures id in rows && !Parses(rows[id]) ==> r == Failure(500, "Failed to get destination")
    {
      if id !in rows then Failure(404, "Destination not found")
      else if !Parses(rows[id]) then Failure(500, "Failed to get destination")
      else Success(200, View(rows[id]))
    }

    /** `getAllDestinations`: every destination, ordered by name, with its
      months parsed; one row whose months do not parse fails the whole
      read. */
    method GetAllDestinations() returns (r: Response<seq<DestinationView>>)
      ensures r.Success? <==> forall k :: k in rows ==> Parses(rows[k])
      ensures r.Failure? ==> r == Failure(500, "Failed to get destinations")
      ensures r.Success? ==>
        && r.status == 200
        && |r.value| == |rows|
        && (forall k :: k in rows ==> View(rows[k]) in r.value)
        && (forall v :: v in r.value ==> exists k :: k in rows && View(rows[k]) == v)
        && Text.SortedByKey(r.value, ViewName)
    {
      var sorted := Text.SortedValues(rows, NameOf);
      var views := ParseAll(sorted);
      if views.None? {
        assert exists k :: k in rows && !Parses(rows[k]) by {
          var i :| 0 <= i < |sorted| && !Parses(sorted[i]);
          assert sorted[i] in sorted;
        }
        return Failure(500, "Failed to get destinations");
      }
      ParseAllKeepsOrder(sorted);
      forall k | k in rows ensures Parses(rows[k]) && View(rows[k]) in views.value {
        assert rows[k] in rows.Values;
        var i :| 0 <= i < |sorted| && sorted[i] == rows[k];
        assert views.value[i] == View(rows[k]);
      }
      forall v | v in views.value ensures exists k :: k in rows && View(rows[k]) == v {
        var i :| 0 <= i < |views.value| && views.value[i] == v;
        assert sorted[i] in sorted;
        var k :| k in rows && rows[k] == sorted[i];
      }
      return Success(200, views.value);
    }

    /** `createDestination`: a new row under the fresh id `rowId`, the month
      list stored as a list and the status defaulting to 'available'; the
      reply is the new row read back, with the month list as given. */
    method CreateDestination(caller: AdminMiddleware.AuthUser, name: string, description: string,
                             durationDays: int, bestMonths: seq<string>, difficulty: string,
                             status: Option<string>, imageUrl: Option<string>, rowId: string)
      returns (r: Response<DestinationView>)
      requires Valid() && AdminMiddleware.Ops(Some(caller)) && rowId !in rows
      modifies this
      ensures Valid()
      ensures rows == old(rows)[rowId := Destination(rowId, name, description, durationDays, Months(bestMonths),
                                                     difficulty, StatusOrDefault(status), imageUrl)]
      ensures r.Success? && r.status == 201 && r.value.bestMonths == bestMonths
      ensures DestinationById(rowId) == Success(200, r.value)
    {
      var d := Destination(rowId, name, description, durationDays, Months(bestMonths), difficulty,
                           StatusOrDefault(status), imageUrl);
      rows := rows[rowId := d];
      return Success(201, View(d));
    }

    /** `updateDestination`: an unknown id fails (500). Otherwise the row is
      patched; the reply then parses the stored months, so a row whose old
      months do not parse, patched without new ones, is updated and still
      answered with 500. */
    method UpdateDestination(caller: AdminMiddleware.AuthUser, id: string, patch: DestinationPatch)
      returns (r: Response<DestinationView>)
      requires Valid() && AdminMiddleware.Ops(Some(caller))
      modifies this
      ensures Valid()
      ensures id !in old(rows) ==> r == Failure(500, "Failed to update destination") && rows == old(rows)
      ensures id in old(rows) ==> rows == old(rows)[id := Patched(old(rows)[id], patch)]
      ensures id in old(rows) && Parses(rows[id]) ==> r == Success(200, View(rows[id])) && DestinationById(id) == r
      ensures id in old(rows) && !Parses(rows[id]) ==> r == Failure(500, "Failed to update destination")
    {
      if id !in rows {
        return Failure(500, "Failed to update destination");
      }
      var d := Patched(rows[id], patch);
      rows := rows[id := d];
      if !Parses(d) {
        return Failure(500, "Failed to update destination");
      }
      return Success(200, View(d));
    }

    /** `deleteDestination`: removes exactly the row `id`; an unknown id fails
      (500) and nothing changes. */
    method DeleteDestination(caller: AdminMiddleware.AuthUser, id: string) returns (r: Response<string>)
      requires Valid() && AdminMiddleware.Ops(Some(caller))
      modifies this
      ensures Valid()
      ensures id !in old(rows) ==> r == Failure(500, "Failed to delete destination") && rows == old(rows)
      ensures id in old(rows) ==> r == Success(200, "Destination deleted successfully") && rows == old(rows) - {id}
    {
      if id !in rows {
        return Failure(500, "Failed to delete destination");
      }
      rows := rows - {id};
      return Success(200, "Destination deleted successfully");
    }
  }
}
