/** The sidecar of ids this server has touched: what it holds, what is written to the file, and
    what is read back. */
module Registry {
  import opened Prelude
  import opened Strings
  import opened Json
  import JsonGrammar
  import JsonParser
  import JsonRoundTrip

  datatype Approval = Approval(approvalId: string, workflowId: string, resolution: string)

  /** A BTreeSet is a BTreeMap to the unit value. */
  datatype Known = Known(workflows: seq<Entry<()>>, approvals: seq<Approval>)

  const EMPTY := Known([], [])

  // --- the operations as functions -----------------------------------------------------

  function Touch(k: Known, workflowId: string): Known {
    if workflowId == "" then k else k.(workflows := Insert(k.workflows, workflowId, ()))
  }

  function Retain(rows: seq<Approval>, approvalId: string): (r: seq<Approval>)
    ensures forall a :: a in r <==> a in rows && a.approvalId != approvalId
  {
    if rows == [] then []
    else
      var n := |rows| - 1;
      assert rows == rows[..n] + [rows[n]];
      var before := Retain(rows[..n], approvalId);
      if rows[n].approvalId != approvalId then before + [rows[n]] else before
  }

  function Record(k: Known, row: Approval): Known {
    k.(approvals := Retain(k.approvals, row.approvalId) + [row])
  }

  /** `json::obj`: the pairs collected into an ordered map. */
  function Object(pairs: seq<(string, Value)>): seq<Entry<Value>> {
    if pairs == [] then []
    else var n := |pairs| - 1; Insert(Object(pairs[..n]), pairs[n].0, pairs[n].1)
  }

  function RowValue(row: Approval): Value {
    Obj(Object([("approval_id", Str(row.approvalId)), ("workflow_id", Str(row.workflowId)),
                ("resolution", Str(row.resolution))]))
  }

  function IdValues(workflows: seq<Entry<()>>): seq<Value> {
    seq(|workflows|, i requires 0 <= i < |workflows| => Str(workflows[i].key))
  }

  function RowValues(rows: seq<Approval>): seq<Value> {
    seq(|rows|, i requires 0 <= i < |rows| => RowValue(rows[i]))
  }

  function ToValue(k: Known): Value {
    Obj(Object([("workflows", Arr(IdValues(k.workflows))), ("approvals", Arr(RowValues(k.approvals)))]))
  }

  function StrField(v: Value, key: string): Option<string> {
    if v.Obj? && Get(v.fields, key).Some? && Get(v.fields, key).value.Str?
    then Some(Get(v.fields, key).value.text) else None
  }

  function OrEmpty(s: Option<string>): string { if s.Some? then s.value else "" }

  function ReadIds(ids: seq<Value>): seq<Entry<()>> {
    if ids == [] then []
    else
      var n := |ids| - 1;
      var before := ReadIds(ids[..n]);
      if ids[n].Str? && ids[n].text != "" then Insert(before, ids[n].text, ()) else before
  }

  function ReadRow(v: Value): Option<Approval> {
    var a, w, r := OrEmpty(StrField(v, "approval_id")), OrEmpty(StrField(v, "workflow_id")),
      OrEmpty(StrField(v, "resolution"));
    if a != "" && w != "" then Some(Approval(a, w, if r == "" then "approved" else r)) else None
  }

  function ReadRows(rows: seq<Value>): (r: seq<Approval>)
    ensures |r| <= |rows|
  {
    if rows == [] then []
    else
      var n := |rows| - 1;
      var before := ReadRows(rows[..n]);
      match ReadRow(rows[n]) case None => before case Some(a) => before + [a]
  }

  function Items(v: Value, key: string): seq<Value> {
    if v.Obj? && Get(v.fields, key).Some? && Get(v.fields, key).value.Arr? then Get(v.fields, key).value.items else []
  }

  function FromValue(v: Value): Known {
    Known(ReadIds(Items(v, "workflows")), ReadRows(Items(v, "approvals")))
  }

  /** What `load` makes of the file's text: any failure is an empty registry. */
  function Load(text: string): Known {
    if IsBlankText(text) then EMPTY
    else match JsonGrammar.Parse(text)
      case None => EMPTY
      case Some(v) => FromValue(v)
  }

  function Saved(k: Known): string
    requires FloatFree(ToValue(k))
  {
    Render(ToValue(k))
  }

  // --- the object ------------------------------------------------------------------------

  predicate Contains(w: seq<Entry<()>>, id: string) { Get(w, id).Some? }

  /** The same set of ids, with one more unless it is empty. */
  ghost predicate SameButFor(before: seq<Entry<()>>, after: seq<Entry<()>>, added: string) {
    forall id: string :: Contains(after, id) <==> Contains(before, id) || (id == added && added != "")
  }

  lemma TouchedSet(w: seq<Entry<()>>, id: string)
    requires Sorted(w) && id != ""
    ensures Sorted(Insert(w, id, ())) && SameButFor(w, Insert(w, id, ()), id)
  {
    hide Insert, Get, Sorted;
    InsertIsMapUpdate(w, id, (), id);
    forall probe: string ensures Contains(Insert(w, id, ()), probe) <==> Contains(w, probe) || probe == id {
      InsertIsMapUpdate(w, id, (), probe);
    }
  }

  class Store {
    var workflows: seq<Entry<()>>
    var approvals: seq<Approval>

    ghost function State(): Known
      reads this
    {
      Known(workflows, approvals)
    }

    constructor ()
      ensures State() == EMPTY
    {
      workflows, approvals := [], [];
    }

    method TouchWorkflow(workflowId: string)
      modifies this
      ensures State() == Touch(old(State()), workflowId)
      ensures old(Sorted(workflows)) ==> Sorted(workflows) && SameButFor(old(workflows), workflows, workflowId)
    {
      if workflowId != "" {
        ghost var w := workflows;
        assert Sorted(w) ==>
            Sorted(Insert(w, workflowId, ())) && SameButFor(w, Insert(w, workflowId, ()), workflowId) by {
          if Sorted(w) { TouchedSet(w, workflowId); }
        }
        workflows := Insert(workflows, workflowId, ());
      }
    }

    method RecordApproval(row: Approval)
      modifies this
      ensures State() == Record(old(State()), row)
    {
      var kept: seq<Approval> := [];
      for i := 0 to |approvals|
        invariant kept == Retain(approvals[..i], row.approvalId)
      {
        assert approvals[..i + 1][..i] == approvals[..i];
        if approvals[i].approvalId != row.approvalId { kept := kept + [approvals[i]]; }
      }
      assert approvals[..|approvals|] == approvals;
      approvals := kept + [row];
    }

    method FromParsed(v: Value)
      modifies this
      ensures State() == FromValue(v)
    {
      workflows, approvals := [], [];
      var ids, rows := Items(v, "workflows"), Items(v, "approvals");
      for i := 0 to |ids|
        invariant workflows == ReadIds(ids[..i]) && approvals == []
      {
        assert ids[..i + 1][..i] == ids[..i];
        if ids[i].Str? && ids[i].text != "" { workflows := Insert(workflows, ids[i].text, ()); }
      }
      assert ids[..|ids|] == ids;
      for i := 0 to |rows|
        invariant workflows == ReadIds(ids) && approvals == ReadRows(rows[..i])
      {
        hide ReadRow, ReadIds;
        assert rows[..i + 1][..i] == rows[..i];
        match ReadRow(rows[i]) { case None => case Some(a) => approvals := approvals + [a]; }
      }
      assert rows[..|rows|] == rows;
    }

    method LoadText(text: string)
      modifies this
      ensures State() == Load(text)
    {
      if IsBlankText(text) {
        workflows, approvals := [], [];
      } else {
        var parsed := JsonParser.ParseText(text);
        FromParsed(if parsed.None? then Null else parsed.value);
      }
    }

    method Save() returns (text: string)
      ensures FloatFree(ToValue(State())) && text == Saved(State())
    {
      SavedShape(State());
      var out := new Json.Output();
      out.WriteValue(ToValue(Known(workflows, approvals)));
      text := out.text;
      assert "" + Render(ToValue(State())) == Render(ToValue(State()));
    }
  }

  // --- the written value --------------------------------------------------------------------

  /** An object built from distinct keys answers each of them. */
  lemma ObjectOfTwo(a: string, x: Value, b: string, y: Value)
    requires a != b
    ensures var m := Object([(a, x), (b, y)]);
            Sorted(m) && Get(m, a) == Some(x) && Get(m, b) == Some(y)
            && forall e :: e in m ==> e == Entry(a, x) || e == Entry(b, y)
  {
    var p := [(a, x), (b, y)];
    assert p[..1] == [(a, x)] && p[..1][..0] == [];
    assert Object(p[..1]) == Insert([], a, x);
    InsertIsMapUpdate([], a, x, a);
    InsertIsMapUpdate(Insert([], a, x), b, y, a);
    InsertIsMapUpdate(Insert([], a, x), b, y, b);
  }

  lemma ObjectOfThree(a: string, x: Value, b: string, y: Value, c: string, z: Value)
    requires a != b && a != c && b != c
    ensures var m := Object([(a, x), (b, y), (c, z)]);
            Sorted(m) && Get(m, a) == Some(x) && Get(m, b) == Some(y) && Get(m, c) == Some(z)
            && forall e :: e in m ==> e == Entry(a, x) || e == Entry(b, y) || e == Entry(c, z)
  {
    var p := [(a, x), (b, y), (c, z)];
    assert p[..2] == [(a, x), (b, y)];
    ObjectOfTwo(a, x, b, y);
    var m := Object(p[..2]);
    InsertIsMapUpdate(m, c, z, a);
    InsertIsMapUpdate(m, c, z, b);
    InsertIsMapUpdate(m, c, z, c);
  }

  lemma {:induction false} FieldsDepthBound(fields: seq<Entry<Value>>, d: nat)
    requires forall i :: 0 <= i < |fields| ==> Depth(fields[i].value) <= d
    ensures FieldsDepth(fields) <= 1 + d
  {
    if fields != [] { FieldsDepthBound(fields[1..], d); }
  }

  lemma {:induction false} ItemsDepthBound(items: seq<Value>, d: nat)
    requires forall i :: 0 <= i < |items| ==> Depth(items[i]) <= d
    ensures ItemsDepth(items) <= 1 + d
  {
    if items != [] { ItemsDepthBound(items[1..], d); }
  }

  lemma RowShape(row: Approval)
    ensures var v := RowValue(row);
            FloatFree(v) && WellFormed(v) && Depth(v) <= 1
            && StrField(v, "approval_id") == Some(row.approvalId)
            && StrField(v, "workflow_id") == Some(row.workflowId)
            && StrField(v, "resolution") == Some(row.resolution)
  {
    hide Object, Insert;
    ObjectOfThree("approval_id", Str(row.approvalId), "workflow_id", Str(row.workflowId), "resolution",
                  Str(row.resolution));
    var fields := RowValue(row).fields;
    forall i | 0 <= i < |fields| ensures fields[i].value.Str? { assert fields[i] in fields; }
    FieldsDepthBound(fields, 0);
  }

  /** The value written is float-free, has ordered keys, and nests three levels at most. */
  lemma SavedShape(k: Known)
    ensures var v := ToValue(k);
            FloatFree(v) && WellFormed(v) && Depth(v) <= 3
            && Items(v, "workflows") == IdValues(k.workflows) && Items(v, "approvals") == RowValues(k.approvals)
  {
    hide Object, Insert, RowValue;
    var ids, rows := Arr(IdValues(k.workflows)), Arr(RowValues(k.approvals));
    forall i | 0 <= i < |rows.items|
      ensures FloatFree(rows.items[i]) && WellFormed(rows.items[i]) && Depth(rows.items[i]) <= 1 {
      RowShape(k.approvals[i]);
    }
    forall i | 0 <= i < |ids.items|
      ensures FloatFree(ids.items[i]) && WellFormed(ids.items[i]) && Depth(ids.items[i]) == 0 {
      assert ids.items[i] == Str(k.workflows[i].key);
    }
    ItemsDepthBound(ids.items, 0);
    ItemsDepthBound(rows.items, 1);
    assert FloatFree(ids) && WellFormed(ids) && FloatFree(rows) && WellFormed(rows);
    ObjectOfTwo("workflows", ids, "approvals", rows);
    var fields := ToValue(k).fields;
    forall i | 0 <= i < |fields| ensures fields[i].value == ids || fields[i].value == rows {
      assert fields[i] in fields;
    }
    FieldsDepthBound(fields, 2);
  }

  // --- save then load -------------------------------------------------------------------------

  predicate FilledRow(a: Approval) { a.approvalId != "" && a.workflowId != "" && a.resolution != "" }

  /** No empty string where the reader would drop or replace it. */
  ghost predicate Filled(k: Known) {
    NonEmpty(k.workflows) && forall i :: 0 <= i < |k.approvals| ==> FilledRow(k.approvals[i])
  }

  ghost predicate NonEmpty(w: seq<Entry<()>>) { forall e :: e in w ==> e.key != "" }

  lemma ReadIdsStep(before: seq<Entry<()>>, last: Entry<()>)
    ensures var read := ReadIds(IdValues(before));
            ReadIds(IdValues(before + [last])) == if last.key == "" then read else Insert(read, last.key, ())
  {
    assert IdValues(before + [last])[..|before|] == IdValues(before);
  }

  lemma InsertNonEmpty(read: seq<Entry<()>>, last: Entry<()>)
    requires Sorted(read) && NonEmpty(read) && last.key != ""
    ensures Sorted(Insert(read, last.key, ())) && NonEmpty(Insert(read, last.key, ()))
  {
    InsertIsMapUpdate(read, last.key, (), last.key);
  }

  lemma Prefix(before: seq<Entry<()>>, last: Entry<()>)
    requires Sorted(before + [last])
    ensures Sorted(before)
    ensures NonEmpty(before + [last]) ==> NonEmpty(before) && last.key != ""
  {
    var w := before + [last];
    assert forall i :: 0 <= i < |before| ==> w[i] == before[i];
    assert w[|before|] == last;
  }

  lemma {:induction false} ReadIdsBack(w: seq<Entry<()>>)
    requires Sorted(w)
    ensures NonEmpty(w) ==> ReadIds(IdValues(w)) == w
    ensures Sorted(ReadIds(IdValues(w))) && NonEmpty(ReadIds(IdValues(w)))
  {
    if w != [] {
      hide ReadIds, IdValues, Insert, Sorted, NonEmpty;
      var n := |w| - 1;
      var before, last := w[..n], w[n];
      assert w == before + [last];
      Prefix(before, last);
      ReadIdsBack(before);
      ReadIdsStep(before, last);
      if last.key != "" { InsertNonEmpty(ReadIds(IdValues(before)), last); }
      assert last == Entry(last.key, ()) by { match last.value { case () => } }
      if NonEmpty(w) { InsertLast(before, last.key, ()); }
    }
  }

  function RowBack(row: Approval): seq<Approval> {
    if row.approvalId == "" || row.workflowId == "" then []
    else [row.(resolution := if row.resolution == "" then "approved" else row.resolution)]
  }

  function OneRow(v: Value): seq<Approval> { match ReadRow(v) case None => [] case Some(a) => [a] }

  lemma ReadRowsSnoc(values: seq<Value>, v: Value)
    ensures ReadRows(values + [v]) == ReadRows(values) + OneRow(v)
  {
    hide ReadRow;
    assert (values + [v])[..|values|] == values;
  }

  lemma RowReadBack(row: Approval)
    ensures OneRow(RowValue(row)) == RowBack(row)
  {
    hide RowValue;
    RowShape(row);
  }

  lemma ReadRowsStep(before: seq<Approval>, last: Approval)
    ensures ReadRows(RowValues(before + [last])) == ReadRows(RowValues(before)) + RowBack(last)
  {
    hide RowValue, ReadRows, OneRow, RowBack;
    RowReadBack(last);
    ReadRowsSnoc(RowValues(before), RowValue(last));
    assert RowValues(before + [last]) == RowValues(before) + [RowValue(last)];
  }

  lemma RowBackIs(row: Approval)
    ensures |RowBack(row)| <= 1 && (RowBack(row) == [row] <==> FilledRow(row))
  {
  }

  /** A list grown by at most one element is another grown by exactly one only if both parts agree. */
  lemma SameSnoc(read: seq<Approval>, tail: seq<Approval>, before: seq<Approval>, last: Approval)
    requires |read| <= |before| && |tail| <= 1
    ensures read + tail == before + [last] <==> read == before && tail == [last]
  {
    if read + tail == before + [last] {
      assert |read| == |before| && |tail| == 1;
      assert (read + tail)[..|read|] == read && (before + [last])[..|before|] == before;
      assert (read + tail)[|read|] == tail[0] && (before + [last])[|before|] == last;
    }
  }

  lemma {:induction false} ReadRowsBack(rows: seq<Approval>)
    ensures ReadRows(RowValues(rows)) == rows <==> forall i :: 0 <= i < |rows| ==> FilledRow(rows[i])
    ensures |ReadRows(RowValues(rows))| <= |rows|
  {
    if rows != [] {
      hide ReadRows, RowValues, RowBack, FilledRow;
      var n := |rows| - 1;
      var before, last := rows[..n], rows[n];
      ReadRowsBack(before);
      assert rows == before + [last];
      ReadRowsStep(before, last);
      RowBackIs(last);
      SameSnoc(ReadRows(RowValues(before)), RowBack(last), before, last);
      AllFilled(before, last);
    }
  }

  lemma AllFilled(before: seq<Approval>, last: Approval)
    ensures var rows := before + [last];
            (forall i :: 0 <= i < |rows| ==> FilledRow(rows[i]))
            <==> (forall i :: 0 <= i < |before| ==> FilledRow(before[i])) && FilledRow(last)
  {
    hide FilledRow;
    var rows := before + [last];
    if forall i :: 0 <= i < |rows| ==> FilledRow(rows[i]) {
      forall i | 0 <= i < |before| ensures FilledRow(before[i]) { assert FilledRow(rows[i]); }
      assert FilledRow(rows[|before|]);
    }
  }

  lemma SavedNotBlank(k: Known)
    requires FloatFree(ToValue(k))
    ensures !IsBlankText(Saved(k))
  {
    var v := ToValue(k);
    assert Render(v) == "{" + FieldsText(v.fields) + "}";
    assert Render(v)[0] == '{';
  }

  /** Saving then loading gives the registry back exactly when no recorded field is empty. */
  lemma SaveLoad(k: Known)
    requires Sorted(k.workflows)
    ensures FloatFree(ToValue(k))
    ensures Load(Saved(k)) == k <==> Filled(k)
  {
    hide ToValue, ReadIds, ReadRows, IdValues, RowValues;
    SavedShape(k);
    SavedNotBlank(k);
    JsonRoundTrip.RenderParse(ToValue(k));
    ReadIdsBack(k.workflows);
    ReadRowsBack(k.approvals);
  }

  // --- what the file says, and what is read from any file -------------------------------------

  predicate HasText(v: Value, key: string, text: string) { v.Obj? && Get(v.fields, key) == Some(Str(text)) }

  predicate SaysRow(v: Value, row: Approval) {
    HasText(v, "approval_id", row.approvalId) && HasText(v, "workflow_id", row.workflowId)
    && HasText(v, "resolution", row.resolution)
  }

  lemma RowSays(row: Approval)
    ensures SaysRow(RowValue(row), row)
  {
    hide Object, Insert;
    ObjectOfThree("approval_id", Str(row.approvalId), "workflow_id", Str(row.workflowId), "resolution",
                  Str(row.resolution));
  }

  /** The text of the file is one JSON object, with the ids in order under one key and the rows in order under
      another. */
  lemma FileSays(k: Known)
    requires Sorted(k.workflows)
    ensures FloatFree(ToValue(k)) && JsonGrammar.Parse(Saved(k)).Some?
    ensures var v := JsonGrammar.Parse(Saved(k)).value;
            v.Obj? && Get(v.fields, "workflows").Some? && Get(v.fields, "workflows").value.Arr?
            && Get(v.fields, "approvals").Some? && Get(v.fields, "approvals").value.Arr?
            && var ids, rows := Get(v.fields, "workflows").value.items, Get(v.fields, "approvals").value.items;
               |ids| == |k.workflows| && (forall i :: 0 <= i < |ids| ==> ids[i] == Str(k.workflows[i].key))
               && |rows| == |k.approvals| && (forall i :: 0 <= i < |rows| ==> SaysRow(rows[i], k.approvals[i]))
  {
    hide Object, Insert, RowValue, SaysRow, JsonGrammar.Parse, Render;
    SavedShape(k);
    JsonRoundTrip.RenderParse(ToValue(k));
    ObjectOfTwo("workflows", Arr(IdValues(k.workflows)), "approvals", Arr(RowValues(k.approvals)));
    forall i | 0 <= i < |k.approvals| ensures SaysRow(RowValue(k.approvals[i]), k.approvals[i]) {
      RowSays(k.approvals[i]);
    }
  }

  /** Of any list of values the ids are the strings that are not empty, as a set. */
  lemma {:induction false} ReadIdsMeans(ids: seq<Value>, id: string)
    ensures Sorted(ReadIds(ids))
    ensures Contains(ReadIds(ids), id) <==> id != "" && Str(id) in ids
  {
    if ids != [] {
      var n := |ids| - 1;
      assert ids == ids[..n] + [ids[n]];
      ReadIdsMeans(ids[..n], id);
      if ids[n].Str? && ids[n].text != "" { InsertIsMapUpdate(ReadIds(ids[..n]), ids[n].text, (), id); }
    }
  }

  /** A value is a row exactly when it is an object with a filled approval id and a filled workflow id; a resolution
      that is missing or empty reads as approved. */
  lemma ReadRowMeans(v: Value, a: string, w: string, r: string)
    ensures ReadRow(v) == Some(Approval(a, w, r)) <==>
              a != "" && w != "" && HasText(v, "approval_id", a) && HasText(v, "workflow_id", w)
              && ((r != "" && HasText(v, "resolution", r))
                  || (r == "approved" && (HasText(v, "resolution", "")
                                          || !exists t: string :: HasText(v, "resolution", t))))
  {
    if v.Obj? && Get(v.fields, "resolution").Some? && Get(v.fields, "resolution").value.Str? {
      assert HasText(v, "resolution", Get(v.fields, "resolution").value.text);
    }
  }

  /** Rows are read one by one, in order. */
  lemma {:induction false} ReadRowsInOrder(a: seq<Value>, b: seq<Value>)
    ensures ReadRows(a + b) == ReadRows(a) + ReadRows(b)
  {
    hide ReadRow;
    if b == [] {
      assert a + b == a;
    } else {
      var n := |b| - 1;
      assert (a + b)[..|a + b| - 1] == a + b[..n] && (a + b)[|a + b| - 1] == b[n];
      ReadRowsInOrder(a, b[..n]);
    }
  }

  lemma ReadOneRow(v: Value)
    ensures ReadRows([v]) == match ReadRow(v) case None => [] case Some(row) => [row]
  {
    hide ReadRow;
    assert [v][..0] == [];
  }

  /** Recording drops the rows of the same approval, keeps the others in their order, and adds the new one last. */
  lemma {:induction false} RetainInOrder(a: seq<Approval>, b: seq<Approval>, id: string)
    ensures Retain(a + b, id) == Retain(a, id) + Retain(b, id)
  {
    if b == [] {
      assert a + b == a;
    } else {
      var n := |b| - 1;
      assert (a + b)[..|a + b| - 1] == a + b[..n] && (a + b)[|a + b| - 1] == b[n];
      RetainInOrder(a, b[..n], id);
      RetainLast(a + b, id);
      RetainLast(b, id);
      hide Retain;
    }
  }

  lemma RetainLast(rows: seq<Approval>, id: string)
    requires rows != []
    ensures var n := |rows| - 1;
            Retain(rows, id) == Retain(rows[..n], id) + if rows[n].approvalId == id then [] else [rows[n]]
  {
    var before := Retain(rows[..|rows| - 1], id);
    assert before + [] == before;
  }

  lemma RetainOne(row: Approval, id: string)
    ensures Retain([row], id) == if row.approvalId == id then [] else [row]
  {
    assert [row][..0] == [];
  }

  // --- every run ---------------------------------------------------------------------------------

  datatype Op = Touched(workflowId: string) | Recorded(row: Approval) | Reloaded

  function Apply(k: Known, op: Op): Known {
    match op
    case Touched(w) => Touch(k, w)
    case Recorded(row) => Record(k, row)
    case Reloaded => SavedShape(k); Load(Saved(k))
  }

  function Run(ops: seq<Op>): Known {
    if ops == [] then EMPTY else Apply(Run(ops[..|ops| - 1]), ops[|ops| - 1])
  }

  ghost predicate Good(k: Known) {
    Sorted(k.workflows) && Filled(k) && Distinct(k.approvals)
  }

  ghost predicate Distinct(rows: seq<Approval>) {
    forall i, j :: 0 <= i < j < |rows| ==> rows[i].approvalId != rows[j].approvalId
  }

  lemma DistinctAppend(rows: seq<Approval>, row: Approval)
    requires Distinct(rows) && forall i :: 0 <= i < |rows| ==> rows[i].approvalId != row.approvalId
    ensures Distinct(rows + [row])
  {
  }

  lemma {:induction false} RetainKeepsDistinct(rows: seq<Approval>, id: string)
    requires Distinct(rows)
    ensures Distinct(Retain(rows, id))
  {
    if rows != [] {
      var n := |rows| - 1;
      var before := rows[..n];
      RetainKeepsDistinct(before, id);
      var t := Retain(before, id);
      forall j | 0 <= j < |t| ensures t[j].approvalId != rows[n].approvalId {
        assert t[j] in before;
        var i :| 0 <= i < n && before[i] == t[j];
        assert rows[i] == t[j];
      }
      DistinctAppend(t, rows[n]);
    }
  }

  lemma ApplyKeepsGood(k: Known, op: Op)
    requires Good(k)
    requires op.Recorded? ==> FilledRow(op.row)
    ensures Good(Apply(k, op))
    ensures op.Reloaded? ==> Apply(k, op) == k
  {
    match op
    case Touched(w) =>
      if w != "" {
        InsertIsMapUpdate(k.workflows, w, (), w);
      }
    case Recorded(row) =>
      RetainKeepsDistinct(k.approvals, row.approvalId);
      var r := Retain(k.approvals, row.approvalId);
      forall i | 0 <= i < |r| ensures r[i].approvalId != row.approvalId && FilledRow(r[i]) { assert r[i] in r; }
      DistinctAppend(r, row);
    case Reloaded => SaveLoad(k);
  }

  /** Over every run that records non-empty fields, with restarts anywhere, approval ids stay distinct
      and a save followed by a load changes nothing. */
  lemma {:induction false} RunSurvivesRestart(ops: seq<Op>)
    requires forall i :: 0 <= i < |ops| && ops[i].Recorded? ==> FilledRow(ops[i].row)
    ensures Good(Run(ops)) && Run(ops + [Reloaded]) == Run(ops)
  {
    if ops != [] {
      var n := |ops| - 1;
      RunSurvivesRestart(ops[..n]);
      ApplyKeepsGood(Run(ops[..n]), ops[n]);
    }
    assert (ops + [Reloaded])[..|ops|] == ops;
    ApplyKeepsGood(Run(ops), Reloaded);
  }
}
