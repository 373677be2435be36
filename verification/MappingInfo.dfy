/** The tracer's registry: resource identities parsed from group/version/resource
    strings, registration events appended per identity, and the CSV export. */
module MappingInfo {
  import opened Wrappers
  import opened GoStrings
  import Csv

  /** Identity of the resource kind a handler registered against, and which
      bootstrap path recorded it. Used as a map key, so equal field by field. */
  datatype Ressource = Ressource(resource: string, resourceGroup: string, resourceVersion: string, createdBy: string)

  /** One handler registration: its name, call site, and the phase current when it registered. */
  datatype RegisterData = RegisterData(controllerName: string, controllerFile: string, controllerLine: int, invokedOne: string)

  /** The call site carried by the registration context, when there is one. */
  datatype Caller = Caller(file: string, line: int)

  /** Registration events per identity, oldest first. A nil Go map behaves as the empty map. */
  type Registry = map<Ressource, seq<RegisterData>>

  /** Initial value of the process-wide phase. */
  const InitialPhase := "initialization"
  /** The two values the bootstrap path gives the actor tag. */
  const RancherActor := "rancher"
  const AgentActor := "agent"

  /** Text removed from the resource segment of an identity string. */
  const ResourceMarker := " Resource="
  /** Version given to an identity whose group/version segment has no single '/'. */
  const DefaultVersion := "Default"
  /** Identity string used for registrations without one. */
  const MatcherGvr := "using_matcher"
  /** File recorded when the context carries no call site. */
  const UnknownFile := "unknown"

  /** The header row, spelled as the exporter writes it. */
  const Header: seq<string> :=
    ["Resource", "ResourceGroup", "ResourVersion", "ControllerName", "File", "Line", "CreatedOn", "CreateBy"]

  // ---------------------------------------------------------------------------
  // Identity strings

  /** The printed form of an identity: `<group>/<version>, Resource=<resource>`.
      It ends with the resource name and holds one ',' more than the fields do,
      so an identity without ',' in its fields prints with exactly one. */
  function Format(r: Ressource): (f: string)
    ensures |r.resource| <= |f| && f[|f| - |r.resource|..] == r.resource
    ensures Count(f, ',') == 1 + Count(r.resourceGroup, ',') + Count(r.resourceVersion, ',') + Count(r.resource, ',')
  {
    var g, v := r.resourceGroup, r.resourceVersion;
    assert ',' !in ResourceMarker;
    CountAppend(g, "/", ',');
    CountAppend(g + "/", v, ',');
    CountAppend(g + "/" + v, ",", ',');
    CountAppend(g + "/" + v + ",", ResourceMarker, ',');
    CountAppend(g + "/" + v + "," + ResourceMarker, r.resource, ',');
    g + "/" + v + "," + ResourceMarker + r.resource
  }

  /** Parses an identity string. It never fails: input without exactly one ','
      becomes the resource name alone, and a group/version segment without
      exactly one '/' becomes the group with version "Default". */
  function ResourceFromString(s: string, actor: string): (r: Ressource)
    ensures r.createdBy == actor
    ensures Count(s, ',') != 1 ==> r == Ressource(s, "", "", actor)
  {
    var first := Split(s, ',');
    if |first| != 2 then Ressource(s, "", "", actor)
    else
      var resource := ReplaceFirst(first[1], ResourceMarker, "");
      var second := Split(first[0], '/');
      if |second| != 2 then Ressource(resource, first[0], DefaultVersion, actor)
      else Ressource(resource, second[0], second[1], actor)
  }

  /** One comma but no single '/' before it: the whole first segment is the group. */
  lemma ParseWithoutVersion(g: string, t: string, actor: string)
    requires ',' !in g && ',' !in t
    requires Count(g, '/') != 1
    ensures ResourceFromString(g + "," + t, actor)
            == Ressource(ReplaceFirst(t, ResourceMarker, ""), g, DefaultVersion, actor)
  {
    SplitPair(g, t, ',');
  }

  /** The well-formed shape: group and version around the one '/', and the
      resource is the second segment with its first " Resource=" removed. */
  lemma ParseWellFormed(g: string, v: string, t: string, actor: string)
    requires ',' !in g && ',' !in v && ',' !in t
    requires '/' !in g && '/' !in v
    ensures ResourceFromString(g + "/" + v + "," + t, actor)
            == Ressource(ReplaceFirst(t, ResourceMarker, ""), g, v, actor)
  {
    var head := g + "/" + v;
    SplitPair(head, t, ',');
    SplitPair(g, v, '/');
    CountAppend(g + "/", v, '/');
    CountAppend(g, "/", '/');
  }

  /** Printing then parsing gives back the identity, provided it was recorded by
      the current actor and no field holds a separator the parser splits on. */
  lemma RoundTrip(r: Ressource, actor: string)
    requires r.createdBy == actor
    requires ',' !in r.resourceGroup && '/' !in r.resourceGroup
    requires ',' !in r.resourceVersion && '/' !in r.resourceVersion
    requires ',' !in r.resource
    ensures ResourceFromString(Format(r), actor) == r
  {
    var t := ResourceMarker + r.resource;
    assert ',' !in ResourceMarker;
    assert Format(r) == r.resourceGroup + "/" + r.resourceVersion + "," + t;
    ParseWellFormed(r.resourceGroup, r.resourceVersion, t, r.createdBy);
    ReplaceLeadingPattern(ResourceMarker, r.resource);
  }

  /** The marker is removed where it first occurs, not only at the start of the
      resource segment: whatever text precedes its first occurrence stays in the
      resource name. */
  lemma MarkerRemovedInside(g: string, v: string, x: string, y: string, actor: string)
    requires ',' !in g && ',' !in v && ',' !in x && ',' !in y
    requires '/' !in g && '/' !in v
    requires forall j :: 0 <= j < |x| ==> !OccursAt(x + ResourceMarker + y, ResourceMarker, j)
    ensures ResourceFromString(g + "/" + v + "," + x + ResourceMarker + y, actor) == Ressource(x + y, g, v, actor)
  {
    var t := x + ResourceMarker + y;
    assert ',' !in ResourceMarker;
    assert ',' !in t;
    assert g + "/" + v + "," + x + ResourceMarker + y == g + "/" + v + "," + t;
    ParseWellFormed(g, v, t, actor);
    ReplaceAfterPrefix(x, ResourceMarker, y);
  }

  // ---------------------------------------------------------------------------
  // Recording registrations

  /** Returns `d[k]`, or no events when `k` has none yet. */
  function Lookup(d: Registry, k: Ressource): seq<RegisterData>
  {
    if k in d then d[k] else []
  }

  /** The key a registration is recorded under: an empty identity string is
      parsed as "using_matcher", which has no ',' and so names the resource alone. */
  function KeyOf(gvr: string, actor: string): (k: Ressource)
    ensures k == ResourceFromString(if gvr == "" then MatcherGvr else gvr, actor)
    ensures gvr == "" ==> k == Ressource(MatcherGvr, "", "", actor)
  {
    if gvr == "" then
      assert ',' !in MatcherGvr;
      Ressource(MatcherGvr, "", "", actor)
    else ResourceFromString(gvr, actor)
  }

  /** The event recorded for a registration. */
  function EventOf(name: string, caller: Option<Caller>, phase: string): RegisterData
  {
    match caller
    case Some(c) => RegisterData(name, c.file, c.line, phase)
    case None => RegisterData(name, UnknownFile, 0, phase)
  }

  /** Appends event `e` to the events of identity `k`, creating the entry when absent. */
  function Record(d: Registry, k: Ressource, e: RegisterData): (d': Registry)
    ensures d'.Keys == d.Keys + {k}
    ensures forall k' :: k' != k ==> Lookup(d', k') == Lookup(d, k')
    ensures |d'[k]| == |Lookup(d, k)| + 1 && d'[k][..|Lookup(d, k)|] == Lookup(d, k) && d'[k][|Lookup(d, k)|] == e
  {
    assert (Lookup(d, k) + [e])[..|Lookup(d, k)|] == Lookup(d, k);
    d[k := Lookup(d, k) + [e]]
  }

  /** Records one registration: appends exactly one event at the end of the
      sequence for the parsed key and leaves every other key as it was. */
  function Log(d: Registry, name: string, gvr: string, caller: Option<Caller>, phase: string, actor: string): (d': Registry)
    ensures d'.Keys == d.Keys + {KeyOf(gvr, actor)}
    ensures forall k :: k in d && k != KeyOf(gvr, actor) ==> d'[k] == d[k]
    ensures var k := KeyOf(gvr, actor);
            && |d'[k]| == |Lookup(d, k)| + 1
            && d'[k][..|d'[k]| - 1] == Lookup(d, k)
            && d'[k][|d'[k]| - 1].controllerName == name
            && d'[k][|d'[k]| - 1].invokedOne == phase
            && (caller.None? ==> d'[k][|d'[k]| - 1].controllerFile == UnknownFile && d'[k][|d'[k]| - 1].controllerLine == 0)
            && (caller.Some? ==> d'[k][|d'[k]| - 1].controllerFile == caller.value.file
                                 && d'[k][|d'[k]| - 1].controllerLine == caller.value.line)
  {
    var k := KeyOf(gvr, actor);
    var e := EventOf(name, caller, phase);
    assert (Lookup(d, k) + [e])[..|Lookup(d, k)|] == Lookup(d, k);
    Record(d, k, e)
  }

  // ---------------------------------------------------------------------------
  // Export rows

  /** Whether the export with `filter` includes the events of `k`. */
  predicate Selected(filter: string, k: Ressource)
  {
    filter == "" || filter == k.createdBy
  }

  /** The eight fields written for one event of one identity. */
  function EventRow(k: Ressource, e: RegisterData): seq<string>
  {
    [k.resource, k.resourceGroup, k.resourceVersion, e.controllerName, e.controllerFile,
     Itoa(e.controllerLine), e.invokedOne, k.createdBy]
  }

  /** The rows for the events of one identity, in event order. */
  function KeyRows(k: Ressource, events: seq<RegisterData>): (rows: seq<seq<string>>)
    ensures |rows| == |events|
    ensures forall i :: 0 <= i < |rows| ==> rows[i] == EventRow(k, events[i])
  {
    if events == [] then [] else [EventRow(k, events[0])] + KeyRows(k, events[1..])
  }

  /** The data rows when the map's keys are visited in `order`. */
  function RowsInOrder(d: Registry, filter: string, order: seq<Ressource>): (rows: seq<seq<string>>)
    ensures forall i :: 0 <= i < |rows| ==> |rows[i]| == 8
    ensures filter != "" ==> forall i :: 0 <= i < |rows| ==> rows[i][7] == filter
  {
    if order == [] then [] else OwnRows(d, filter, order[0]) + RowsInOrder(d, filter, order[1..])
  }

  /** The rows one identity contributes to an export with `filter`. */
  function OwnRows(d: Registry, filter: string, k: Ressource): seq<seq<string>>
  {
    if Selected(filter, k) then KeyRows(k, Lookup(d, k)) else []
  }

  /** `order` visits every key of `d` exactly once, as a Go range over a map does,
      in an order the language leaves unspecified. */
  ghost predicate IsIterationOrder(d: Registry, order: seq<Ressource>)
  {
    multiset(order) == multiset(d.Keys)
  }

  /** The rows `ToCsv` writes: the header, then one row per event of every
      selected identity, each identity's events together and in order. */
  function ExportRows(d: Registry, filter: string, order: seq<Ressource>): (rows: seq<seq<string>>)
    requires IsIterationOrder(d, order)
    ensures |rows| >= 1 && rows[0] == Header
    ensures forall i :: 1 <= i < |rows| ==> |rows[i]| == 8
    ensures filter != "" ==> forall i :: 1 <= i < |rows| ==> rows[i][7] == filter
  {
    [Header] + RowsInOrder(d, filter, order)
  }

  // ---------------------------------------------------------------------------
  // Rows per identity

  /** `row` is a data row of identity `k`: its key columns hold `k`'s four fields. */
  predicate RowOf(row: seq<string>, k: Ressource)
  {
    && |row| == 8
    && row[0] == k.resource && row[1] == k.resourceGroup && row[2] == k.resourceVersion
    && row[7] == k.createdBy
  }

  /** The rows of `rows` that belong to `k`, in their relative order. */
  function RowsOfKey(rows: seq<seq<string>>, k: Ressource): seq<seq<string>>
  {
    if rows == [] then [] else (if RowOf(rows[0], k) then [rows[0]] else []) + RowsOfKey(rows[1..], k)
  }

  lemma {:induction false} RowsOfKeyAppend(a: seq<seq<string>>, b: seq<seq<string>>, k: Ressource)
    ensures RowsOfKey(a + b, k) == RowsOfKey(a, k) + RowsOfKey(b, k)
    decreases |a|
  {
    if a == [] {
      assert a + b == b;
    } else {
      assert (a + b)[0] == a[0];
      assert (a + b)[1..] == a[1..] + b;
      RowsOfKeyAppend(a[1..], b, k);
    }
  }

  /** The rows of one identity belong to it and to no other identity. */
  lemma {:induction false} KeyRowsOfKey(k: Ressource, owner: Ressource, events: seq<RegisterData>)
    ensures RowsOfKey(KeyRows(owner, events), k) == if owner == k then KeyRows(owner, events) else []
    decreases |events|
  {
    if events != [] {
      var rows := KeyRows(owner, events);
      assert rows == [rows[0]] + rows[1..];
      assert rows[1..] == KeyRows(owner, events[1..]);
      assert RowOf(rows[0], k) <==> owner == k;
      KeyRowsOfKey(k, owner, events[1..]);
    }
  }

  lemma {:induction false} RowsInOrderOfKey(d: Registry, filter: string, order: seq<Ressource>, k: Ressource)
    requires multiset(order)[k] <= 1
    ensures RowsOfKey(RowsInOrder(d, filter, order), k)
            == if k in order && Selected(filter, k) then KeyRows(k, Lookup(d, k)) else []
    decreases |order|
  {
    if order != [] {
      var x := order[0];
      assert order == [x] + order[1..];
      assert multiset(order) == multiset{x} + multiset(order[1..]);
      var own := OwnRows(d, filter, x);
      RowsOfKeyAppend(own, RowsInOrder(d, filter, order[1..]), k);
      RowsInOrderOfKey(d, filter, order[1..], k);
      KeyRowsOfKey(k, x, Lookup(d, x));
      if x == k {
        assert multiset(order[1..])[k] == 0;
        assert k !in order[1..];
      }
    }
  }

  /** Filtered by identity, the export holds exactly that identity's events, in
      the order they were recorded, when the filter selects it, and nothing otherwise. */
  lemma ExportRowsOfKey(d: Registry, filter: string, order: seq<Ressource>, k: Ressource)
    requires IsIterationOrder(d, order)
    ensures RowsOfKey(ExportRows(d, filter, order)[1..], k)
            == if k in d && Selected(filter, k) then KeyRows(k, d[k]) else []
  {
    assert ExportRows(d, filter, order)[1..] == RowsInOrder(d, filter, order);
    assert multiset(order)[k] == multiset(d.Keys)[k];
    assert k in order <==> k in multiset(order);
    RowsInOrderOfKey(d, filter, order, k);
  }

  // ---------------------------------------------------------------------------
  // Independence from the map's iteration order

  lemma {:induction false} RowsInOrderAppend(d: Registry, filter: string, a: seq<Ressource>, b: seq<Ressource>)
    ensures RowsInOrder(d, filter, a + b) == RowsInOrder(d, filter, a) + RowsInOrder(d, filter, b)
    decreases |a|
  {
    if a == [] {
      assert a + b == b;
    } else {
      assert (a + b)[0] == a[0];
      assert (a + b)[1..] == a[1..] + b;
      RowsInOrderAppend(d, filter, a[1..], b);
    }
  }

  lemma {:induction false} RowsInOrderPermutation(d: Registry, filter: string, o1: seq<Ressource>, o2: seq<Ressource>)
    requires multiset(o1) == multiset(o2)
    ensures multiset(RowsInOrder(d, filter, o1)) == multiset(RowsInOrder(d, filter, o2))
    decreases |o1|
  {
    if o1 == [] {
      SameLength(o1, o2);
    } else {
      var x := o1[0];
      var j := RemoveFirst(o1, o2);
      var rest := o2[..j] + o2[j + 1..];
      RowsInOrderPermutation(d, filter, o1[1..], rest);
      var front := RowsInOrder(d, filter, o2[..j]);
      var back := RowsInOrder(d, filter, o2[j + 1..]);
      var own := OwnRows(d, filter, x);
      RowsInOrderSplitAt(d, filter, o2, j);
      RowsInOrderAppend(d, filter, o2[..j], o2[j + 1..]);
      assert RowsInOrder(d, filter, rest) == front + back;
      assert RowsInOrder(d, filter, o1) == own + RowsInOrder(d, filter, o1[1..]);
      assert multiset(RowsInOrder(d, filter, o1)) == multiset(own) + multiset(front + back);
      assert multiset(RowsInOrder(d, filter, o2)) == multiset(front) + multiset(own) + multiset(back);
    }
  }

  lemma RowsInOrderSplitAt(d: Registry, filter: string, o: seq<Ressource>, j: nat)
    requires j < |o|
    ensures RowsInOrder(d, filter, o)
            == RowsInOrder(d, filter, o[..j]) + OwnRows(d, filter, o[j]) + RowsInOrder(d, filter, o[j + 1..])
  {
    var tail := o[j..];
    assert o == o[..j] + tail;
    RowsInOrderAppend(d, filter, o[..j], tail);
    assert tail[0] == o[j] && tail[1..] == o[j + 1..];
    assert RowsInOrder(d, filter, tail) == OwnRows(d, filter, o[j]) + RowsInOrder(d, filter, o[j + 1..]);
  }

  /** Where the first element of `a` sits in its permutation `b`, and what is left of both without it. */
  lemma RemoveFirst<T>(a: seq<T>, b: seq<T>) returns (j: nat)
    requires multiset(a) == multiset(b) && |a| > 0
    ensures j < |b| && b[j] == a[0]
    ensures multiset(a[1..]) == multiset(b[..j] + b[j + 1..])
  {
    assert a[0] in multiset(b);
    j :| 0 <= j < |b| && b[j] == a[0];
    assert a == [a[0]] + a[1..];
    assert b == b[..j] + [b[j]] + b[j + 1..];
    assert multiset(b) == multiset(b[..j]) + multiset{a[0]} + multiset(b[j + 1..]);
    assert multiset(a) == multiset{a[0]} + multiset(a[1..]);
    assert multiset(b[..j] + b[j + 1..]) == multiset(b[..j]) + multiset(b[j + 1..]);
    assert multiset(a[1..]) == multiset(a) - multiset{a[0]};
  }

  /** Any two visiting orders of the map export the same rows, possibly rearranged. */
  lemma ExportOrderIndependent(d: Registry, filter: string, o1: seq<Ressource>, o2: seq<Ressource>)
    requires IsIterationOrder(d, o1) && IsIterationOrder(d, o2)
    ensures multiset(ExportRows(d, filter, o1)) == multiset(ExportRows(d, filter, o2))
  {
    RowsInOrderPermutation(d, filter, o1, o2);
  }

  // ---------------------------------------------------------------------------
  // Recording, then exporting

  lemma {:induction false} RowsInOrderGrow(d: Registry, filter: string, order: seq<Ressource>, k: Ressource, e: RegisterData)
    ensures |RowsInOrder(d[k := Lookup(d, k) + [e]], filter, order)|
            == |RowsInOrder(d, filter, order)| + (if Selected(filter, k) then multiset(order)[k] else 0)
    decreases |order|
  {
    if order != [] {
      assert order == [order[0]] + order[1..];
      assert multiset(order) == multiset{order[0]} + multiset(order[1..]);
      RowsInOrderGrow(d, filter, order[1..], k, e);
    }
  }

  /** Recording an event adds exactly one row to an export that selects its
      identity, and none to one that does not, whatever order either export visits keys in. */
  lemma RecordAddsOneRow(d: Registry, k: Ressource, e: RegisterData,
                         filter: string, order: seq<Ressource>, order': seq<Ressource>)
    requires IsIterationOrder(d, order)
    requires IsIterationOrder(Record(d, k, e), order')
    ensures |ExportRows(Record(d, k, e), filter, order')| == |ExportRows(d, filter, order)| + (if Selected(filter, k) then 1 else 0)
  {
    var d' := Record(d, k, e);
    var o := RecordOrder(d, k, e, order);
    RowsInOrderPermutation(d', filter, order', o);
    SameLength(RowsInOrder(d', filter, order'), RowsInOrder(d', filter, o));
    RowsInOrderGrow(d, filter, order, k, e);
    if k in d {
      assert multiset(order)[k] == multiset(d.Keys)[k] == 1;
    } else {
      assert multiset(order)[k] == multiset(d.Keys)[k] == 0;
      RowsInOrderAppend(d', filter, order, [k]);
      assert RowsInOrder(d', filter, [k]) == OwnRows(d', filter, k) + [];
    }
  }

  /** An order for the map after recording: the old order, with the key at the end if it is new. */
  lemma RecordOrder(d: Registry, k: Ressource, e: RegisterData, order: seq<Ressource>) returns (o: seq<Ressource>)
    requires IsIterationOrder(d, order)
    ensures IsIterationOrder(Record(d, k, e), o)
    ensures o == if k in d then order else order + [k]
  {
    o := if k in d then order else order + [k];
    if k !in d {
      assert Record(d, k, e).Keys == d.Keys + {k};
      assert multiset(d.Keys + {k}) == multiset(d.Keys) + multiset{k};
    }
  }

  lemma SameLength<T>(a: seq<T>, b: seq<T>)
    requires multiset(a) == multiset(b)
    ensures |a| == |b|
  {
    assert |a| == |multiset(a)|;
    assert |b| == |multiset(b)|;
  }

  /** After recording, the export of the recorded identity ends with the new
      event's row; every other identity's rows are the same as before. */
  lemma RecordThenExport(d: Registry, k: Ressource, e: RegisterData,
                         filter: string, order: seq<Ressource>, order': seq<Ressource>, other: Ressource)
    requires IsIterationOrder(d, order)
    requires IsIterationOrder(Record(d, k, e), order')
    ensures RowsOfKey(ExportRows(Record(d, k, e), filter, order')[1..], other)
            == RowsOfKey(ExportRows(d, filter, order)[1..], other)
               + (if other == k && Selected(filter, k) then [EventRow(k, e)] else [])
  {
    ExportRowsOfKey(d, filter, order, other);
    ExportRowsOfKey(Record(d, k, e), filter, order', other);
    if other == k {
      assert Record(d, k, e)[k] == Lookup(d, k) + [e];
      KeyRowsAppend(k, Lookup(d, k), e);
    }
  }

  lemma KeyRowsAppend(k: Ressource, events: seq<RegisterData>, e: RegisterData)
    ensures KeyRows(k, events + [e]) == KeyRows(k, events) + [EventRow(k, e)]
  {
    var after := KeyRows(k, events + [e]);
    var before := KeyRows(k, events) + [EventRow(k, e)];
    assert |after| == |before|;
    forall i | 0 <= i < |after| ensures after[i] == before[i] {
      assert (events + [e])[i] == if i < |events| then events[i] else e;
    }
  }

  /** A registration shows up as exactly one more row in an export that selects
      its parsed identity, and in no export that does not. */
  lemma LogAddsOneRow(d: Registry, name: string, gvr: string, caller: Option<Caller>, phase: string, actor: string,
                      filter: string, order: seq<Ressource>, order': seq<Ressource>)
    requires IsIterationOrder(d, order)
    requires IsIterationOrder(Log(d, name, gvr, caller, phase, actor), order')
    ensures |ExportRows(Log(d, name, gvr, caller, phase, actor), filter, order')|
            == |ExportRows(d, filter, order)| + (if Selected(filter, KeyOf(gvr, actor)) then 1 else 0)
  {
    assert Log(d, name, gvr, caller, phase, actor) == Record(d, KeyOf(gvr, actor), EventOf(name, caller, phase));
    RecordAddsOneRow(d, KeyOf(gvr, actor), EventOf(name, caller, phase), filter, order, order');
  }

  // ---------------------------------------------------------------------------
  // Export text

  /** A key whose fields the CSV writer would copy verbatim. */
  predicate PlainKey(k: Ressource)
  {
    Csv.PlainField(k.resource) && Csv.PlainField(k.resourceGroup) && Csv.PlainField(k.resourceVersion)
    && Csv.PlainField(k.createdBy)
  }

  /** An event whose text fields the CSV writer would copy verbatim. */
  predicate PlainEvent(e: RegisterData)
  {
    Csv.PlainField(e.controllerName) && Csv.PlainField(e.controllerFile) && Csv.PlainField(e.invokedOne)
  }

  /** Every field the registry can export is written unquoted. */
  ghost predicate PlainRegistry(d: Registry)
  {
    forall k :: k in d ==> PlainKey(k) && forall i :: 0 <= i < |d[k]| ==> PlainEvent(d[k][i])
  }

  lemma ItoaPlain(n: int)
    ensures Csv.PlainField(Itoa(n))
  {
  }

  lemma HeaderPlain()
    ensures forall j :: 0 <= j < |Header| ==> Csv.PlainField(Header[j])
  {
  }

  lemma {:induction false} RowsInOrderPlain(d: Registry, filter: string, order: seq<Ressource>)
    requires PlainRegistry(d)
    ensures Csv.PlainRows(RowsInOrder(d, filter, order))
    decreases |order|
  {
    if order != [] {
      var k := order[0];
      var own := OwnRows(d, filter, k);
      forall i | 0 <= i < |own|
        ensures |own[i]| >= 1 && forall j :: 0 <= j < |own[i]| ==> Csv.PlainField(own[i][j])
      {
        var e := Lookup(d, k)[i];
        assert own[i] == EventRow(k, e);
        ItoaPlain(e.controllerLine);
      }
      RowsInOrderPlain(d, filter, order[1..]);
    }
  }

  lemma ExportRowsPlain(d: Registry, filter: string, order: seq<Ressource>)
    requires IsIterationOrder(d, order) && PlainRegistry(d)
    ensures Csv.PlainRows(ExportRows(d, filter, order))
  {
    HeaderPlain();
    RowsInOrderPlain(d, filter, order);
  }

  /** The text `ToCsv` leaves in its destination, as written: the writer buffers,
      and is flushed only after each data row, never after the header alone.
      When no row follows the header, nothing reaches the destination. */
  function ExportText(d: Registry, filter: string, order: seq<Ressource>): (text: string)
    requires IsIterationOrder(d, order) && PlainRegistry(d)
    ensures |ExportRows(d, filter, order)| > 1 ==> Csv.Decode(text) == ExportRows(d, filter, order)
  {
    ExportRowsPlain(d, filter, order);
    Csv.DecodeEncode(ExportRows(d, filter, order));
    var rows := ExportRows(d, filter, order);
    if |rows| == 1 then [] else Csv.Encode(rows)
  }

  /** The text the exporter evidently means to leave in its destination: the
      header and every row, as if the writer were flushed once more at the end.
      Reading it back always gives the exported rows, header first. */
  function ExportTextFlushed(d: Registry, filter: string, order: seq<Ressource>): (text: string)
    requires IsIterationOrder(d, order) && PlainRegistry(d)
    ensures Csv.Decode(text) == ExportRows(d, filter, order)
  {
    ExportRowsPlain(d, filter, order);
    Csv.DecodeEncode(ExportRows(d, filter, order));
    Csv.Encode(ExportRows(d, filter, order))
  }

  /** The two texts differ only when no data row is written. */
  lemma FlushedAgreesWhenRowsWritten(d: Registry, filter: string, order: seq<Ressource>)
    requires IsIterationOrder(d, order) && PlainRegistry(d)
    ensures |ExportRows(d, filter, order)| > 1 <==> ExportText(d, filter, order) == ExportTextFlushed(d, filter, order)
  {
  }

  /** When no event is selected, the written text is empty: even the header row is lost. */
  lemma HeaderLostWhenNothingSelected(d: Registry, filter: string, order: seq<Ressource>)
    requires IsIterationOrder(d, order) && PlainRegistry(d)
    requires forall k :: k in d && Selected(filter, k) ==> d[k] == []
    ensures ExportText(d, filter, order) == []
    ensures Csv.Decode(ExportText(d, filter, order)) != ExportRows(d, filter, order)
  {
    NothingSelected(d, filter, order);
  }

  lemma {:induction false} NothingSelected(d: Registry, filter: string, order: seq<Ressource>)
    requires forall k :: k in d && Selected(filter, k) ==> d[k] == []
    ensures RowsInOrder(d, filter, order) == []
    decreases |order|
  {
    if order != [] {
      NothingSelected(d, filter, order[1..]);
    }
  }

  /** A registry holding a single event: the export is the header and that
      event's row, and the text as written already holds both. */
  lemma OneEventExport(k: Ressource, e: RegisterData, filter: string)
    requires Selected(filter, k)
    requires PlainKey(k) && PlainEvent(e)
    ensures IsIterationOrder(map[k := [e]], [k]) && PlainRegistry(map[k := [e]])
    ensures ExportRows(map[k := [e]], filter, [k]) == [Header, EventRow(k, e)]
    ensures ExportText(map[k := [e]], filter, [k]) == ExportTextFlushed(map[k := [e]], filter, [k])
  {
    OneEventRows(k, e, filter);
    FlushedAgreesWhenRowsWritten(map[k := [e]], filter, [k]);
  }

  lemma OneEventRows(k: Ressource, e: RegisterData, filter: string)
    requires Selected(filter, k)
    ensures IsIterationOrder(map[k := [e]], [k])
    ensures ExportRows(map[k := [e]], filter, [k]) == [Header, EventRow(k, e)]
  {
    var d := map[k := [e]];
    assert multiset(d.Keys) == multiset{k};
    assert KeyRows(k, [e]) == [EventRow(k, e)];
    assert RowsInOrder(d, filter, [k]) == OwnRows(d, filter, k) + RowsInOrder(d, filter, []);
  }
}
