/**
 * The task record of the task manager (CPPS/cpps_task/cpps_task.py): the
 * product variant built from the configuration, and the conversions to
 * and from the dictionary stored in the database.
 */
module CppsTask {
  import opened Wrappers
  import Json
  import opened PyInt

  /** A task with the fields `Task.__init__` sets; k01..k09 are the nine dictionaries in `ks`. */
  datatype Task = Task(
    taskId: int, date: real, state: Json.Value, configuration: Json.Object,
    emptyKltPhyaddr: int, emptyKltEnergy: int, emptyKltHomePosition: Json.Value,
    robot: Json.Object, taskEndTime: Json.Value, productVariant: Json.Value,
    stage1: string, stage2: string, ks: seq<Json.Object>)

  /** The configuration keys after the engine, in the order the variant joins them. */
  const ColorKeys: seq<string> := ["color_topdown", "color_drone", "color_mounting"]

  /**
   * Appends `'_' + configuration[key]` for each key in turn: a missing key
   * ends in the empty dictionary (the KeyError handler), a value that is not
   * a string in a TypeError.
   */
  function Joined(c: Json.Object, keys: seq<string>, acc: string): (r: Result<Json.Value, string>)
    ensures (forall k :: 0 <= k < |keys| ==> keys[k] in c && c[keys[k]].Str?) ==> r.Ok? && r.value.Str?
    ensures r.Ok? && r.value.Str? ==> forall k :: 0 <= k < |keys| ==> keys[k] in c && c[keys[k]].Str?
    decreases |keys|
  {
    if keys == [] then Ok(Json.Str(acc))
    else if keys[0] !in c then Ok(Json.Dict(map[]))
    else if !c[keys[0]].Str? then Err("TypeError")
    else Joined(c, keys[1..], acc + "_" + c[keys[0]].s)
  }

  /** The four configuration values that name a product variant. */
  predicate Complete(c: Json.Object) {
    "engine" in c &&
    "color_topdown" in c && c["color_topdown"].Str? &&
    "color_drone" in c && c["color_drone"].Str? &&
    "color_mounting" in c && c["color_mounting"].Str?
  }

  /** No color value is anything but a string. */
  predicate ColorsAreStrings(c: Json.Object) {
    ("color_topdown" in c ==> c["color_topdown"].Str?) &&
    ("color_drone" in c ==> c["color_drone"].Str?) &&
    ("color_mounting" in c ==> c["color_mounting"].Str?)
  }

  /**
   * `get_product_variant`: str(engine) + '_' + color_topdown + '_' +
   * color_drone + '_' + color_mounting; the empty dictionary (not a string)
   * for an empty configuration or a missing key. `repr` is Python's text of
   * a float, list or dictionary engine value.
   */
  function ProductVariant(c: Json.Object, repr: Json.Value -> string): (r: Result<Json.Value, string>)
    ensures c == map[] ==> r == Ok(Json.Dict(map[]))
    ensures "engine" !in c ==> r == Ok(Json.Dict(map[]))
    ensures Complete(c) ==>
              r == Ok(Json.Str(StrOf(c["engine"], repr) + "_" + c["color_topdown"].s + "_" +
                               c["color_drone"].s + "_" + c["color_mounting"].s))
    ensures r.Ok? && r.value.Str? <==> Complete(c)
    ensures ColorsAreStrings(c) && !Complete(c) ==> r == Ok(Json.Dict(map[]))
  {
    if c == map[] then Ok(Json.Dict(map[]))
    else if "engine" !in c then Ok(Json.Dict(map[]))
    else
      var r := Joined(c, ColorKeys, StrOf(c["engine"], repr));
      assert Complete(c) ==> r == Ok(Json.Str(StrOf(c["engine"], repr) + "_" + c["color_topdown"].s + "_" +
                                              c["color_drone"].s + "_" + c["color_mounting"].s)) by {
        if Complete(c) {
          var a := StrOf(c["engine"], repr);
          assert ColorKeys[1..] == ["color_drone", "color_mounting"];
          assert ColorKeys[1..][1..] == ["color_mounting"];
          assert ColorKeys[1..][1..][1..] == [];
        }
      }
      assert !Complete(c) && ColorsAreStrings(c) ==> r == Ok(Json.Dict(map[])) by {
        if !Complete(c) && ColorsAreStrings(c) {
          assert ColorKeys[1..] == ["color_drone", "color_mounting"];
          assert ColorKeys[1..][1..] == ["color_mounting"];
          assert ColorKeys[1..][1..][1..] == [];
        }
      }
      r
  }

  /** The text before and after the last underscore, None when there is none. */
  function SplitLast(s: string): Option<(string, string)>
    decreases |s|
  {
    if s == [] then None
    else
      var n := |s| - 1;
      if s[n] == '_' then Some((s[..n], ""))
      else
        match SplitLast(s[..n])
        case None => None
        case Some(p) => Some((p.0, p.1 + [s[n]]))
  }

  lemma {:induction false} SplitLastOf(a: string, b: string)
    requires '_' !in b
    ensures SplitLast(a + "_" + b) == Some((a, b))
    decreases |b|
  {
    var s := a + "_" + b;
    if b == [] {
      assert s[..|s| - 1] == a;
    } else {
      var n := |b| - 1;
      assert s[..|s| - 1] == a + "_" + b[..n];
      assert s[|s| - 1] == b[n];
      SplitLastOf(a, b[..n]);
      assert b[..n] + [b[n]] == b;
    }
  }

  /**
   * When no color contains an underscore, the variant names its three
   * colors: splitting at the last underscores gives them back.
   */
  lemma VariantNamesColors(c: Json.Object, repr: Json.Value -> string)
    requires Complete(c)
    requires '_' !in c["color_topdown"].s && '_' !in c["color_drone"].s && '_' !in c["color_mounting"].s
    ensures ProductVariant(c, repr).Ok? && ProductVariant(c, repr).value.Str?
    ensures var v := ProductVariant(c, repr).value.s;
            var e := StrOf(c["engine"], repr);
            SplitLast(v) == Some((e + "_" + c["color_topdown"].s + "_" + c["color_drone"].s, c["color_mounting"].s)) &&
            SplitLast(e + "_" + c["color_topdown"].s + "_" + c["color_drone"].s) ==
              Some((e + "_" + c["color_topdown"].s, c["color_drone"].s)) &&
            SplitLast(e + "_" + c["color_topdown"].s) == Some((e, c["color_topdown"].s))
  {
    var e := StrOf(c["engine"], repr);
    var t, d, m := c["color_topdown"].s, c["color_drone"].s, c["color_mounting"].s;
    SplitLastOf(e + "_" + t + "_" + d, m);
    SplitLastOf(e + "_" + t, d);
    SplitLastOf(e, t);
  }

  /** `Task(...)`: the given fields, the defaults, and the product variant (which may raise). */
  function NewTask(taskId: int, date: real, state: Json.Value, configuration: Json.Object,
                   repr: Json.Value -> string): (r: Result<Task, string>)
    ensures r.Ok? <==> ProductVariant(configuration, repr).Ok?
    ensures r.Ok? ==>
              r.value.taskId == taskId && r.value.date == date && r.value.state == state &&
              r.value.configuration == configuration &&
              r.value.productVariant == ProductVariant(configuration, repr).value &&
              r.value.emptyKltPhyaddr == 0 && r.value.emptyKltEnergy == 0 &&
              r.value.emptyKltHomePosition == Json.Null && r.value.robot == map[] &&
              r.value.taskEndTime == Json.Null && r.value.stage1 == "" && r.value.stage2 == "" &&
              |r.value.ks| == 9 && forall k :: 0 <= k < 9 ==> r.value.ks[k] == map[]
  {
    match ProductVariant(configuration, repr)
    case Err(e) => Err(e)
    case Ok(pv) =>
      Ok(Task(taskId, date, state, configuration, 0, 0, Json.Null, map[], Json.Null, pv, "", "",
              seq(9, _ => map[])))
  }

  /**
   * The dictionary `dict(items)` builds from a list whose every element is a
   * two-element list with a string key; a later pair overrides an earlier
   * one. None when some element is not such a pair.
   */
  function PairsOf(items: seq<Json.Value>): (r: Option<Json.Object>)
    ensures r.Some? <==> forall i :: 0 <= i < |items| ==> IsPair(items[i])
    ensures r.Some? ==> r.value.Keys == set i | 0 <= i < |items| :: items[i].items[0].s
    ensures r.Some? && |items| > 0 ==> r.value[items[|items| - 1].items[0].s] == items[|items| - 1].items[1]
    decreases |items|
  {
    if items == [] then Some(map[])
    else
      var last := items[|items| - 1];
      match PairsOf(items[..|items| - 1])
      case None => None
      case Some(d) =>
        if IsPair(last) then
          assert forall i :: 0 <= i < |items| - 1 ==> items[..|items| - 1][i] == items[i];
          Some(d[last.items[0].s := last.items[1]])
        else None
  }

  /** A two-element list whose first element is a string. */
  predicate IsPair(v: Json.Value) {
    v.List? && |v.items| == 2 && v.items[0].Str?
  }

  /**
   * Python's `dict(v)` for a configuration: a dictionary is copied; a
   * string is a sequence of one-character strings, so the empty one gives
   * the empty dictionary and any other raises ValueError; a list of string
   * keyed pairs gives their dictionary; None, booleans and numbers are not
   * iterable and raise TypeError.
   */
  function DictOf(v: Json.Value): (r: Result<Json.Object, string>)
    ensures v.Dict? ==> r == Ok(v.fields)
    ensures v.Str? ==> (r.Ok? <==> v.s == "") && (r.Ok? ==> r.value == map[]) && (r.Err? ==> r.error == "ValueError")
    ensures v.List? && PairsOf(v.items).Some? ==> r == Ok(PairsOf(v.items).value)
    ensures v.List? && v.items == [] ==> r == Ok(map[])
    ensures v.Null? || v.Bool? || v.Int? || v.Real? ==> r == Err("TypeError")
  {
    match v
    case Dict(fields) => Ok(fields)
    case Str(s) => if s == "" then Ok(map[]) else Err("ValueError")
    case List(items) => if PairsOf(items).Some? then Ok(PairsOf(items).value) else Err("TypeError")
    case _ => Err("TypeError")
  }

  /**
   * `Task.from_dict`: task_id coerced with `int`, state copied, the
   * configuration converted with `dict`, and the date set to the current
   * time `now`; a missing key raises KeyError.
   */
  function FromDict(source: Json.Object, now: real, repr: Json.Value -> string): (r: Result<Task, string>)
    ensures "task_id" !in source ==> r == Err("KeyError")
    ensures ("task_id" in source && IntOf(source["task_id"]).Ok? &&
             ("state" !in source || "configuration" !in source)) ==> r == Err("KeyError")
    ensures ("task_id" in source && IntOf(source["task_id"]).Ok? && "state" in source && "configuration" in source &&
             DictOf(source["configuration"]).Err?) ==> r == Err(DictOf(source["configuration"]).error)
    ensures r.Ok? ==>
              IntOf(source["task_id"]) == Ok(r.value.taskId) && r.value.state == source["state"] &&
              DictOf(source["configuration"]) == Ok(r.value.configuration) && r.value.date == now
  {
    if "task_id" !in source then Err("KeyError")
    else
      match IntOf(source["task_id"])
      case Err(e) => Err(e)
      case Ok(taskId) =>
        if "state" !in source || "configuration" !in source then Err("KeyError")
        else
          match DictOf(source["configuration"])
          case Err(e) => Err(e)
          case Ok(configuration) => NewTask(taskId, now, source["state"], configuration, repr)
  }

  /** `Task.to_dict`. */
  function ToDict(t: Task): Json.Object
    requires |t.ks| == 9
  {
    // The keys read back by FromDict come last, so that looking them up is short.
    map[
      "date" := Json.Real(t.date),
      "empty_klt_phyaddr" := Json.Int(t.emptyKltPhyaddr), "empty_klt_energy" := Json.Int(t.emptyKltEnergy),
      "empty_klt_home_position" := t.emptyKltHomePosition, "robot" := Json.Dict(t.robot),
      "task_end_time" := t.taskEndTime, "product_variant" := t.productVariant,
      "stage1" := Json.Str(t.stage1), "stage2" := Json.Str(t.stage2),
      "k01" := Json.Dict(t.ks[0]), "k02" := Json.Dict(t.ks[1]), "k03" := Json.Dict(t.ks[2]),
      "k04" := Json.Dict(t.ks[3]), "k05" := Json.Dict(t.ks[4]), "k06" := Json.Dict(t.ks[5]),
      "k07" := Json.Dict(t.ks[6]), "k08" := Json.Dict(t.ks[7]), "k09" := Json.Dict(t.ks[8]),
      "configuration" := Json.Dict(t.configuration), "state" := t.state, "task_id" := Json.Int(t.taskId)
    ]
  }

  /** A task whose stored variant is the one its configuration names, as every constructed task is. */
  predicate WellFormed(t: Task, repr: Json.Value -> string) {
    |t.ks| == 9 && ProductVariant(t.configuration, repr) == Ok(t.productVariant)
  }

  /**
   * Loading a stored task gives back its id, state, configuration and
   * product variant; the date becomes the load time and the per-run
   * fields (container, robot, end time, stages) start afresh.
   */
  lemma FromDictOfToDict(t: Task, now: real, repr: Json.Value -> string)
    requires WellFormed(t, repr)
    ensures FromDict(ToDict(t), now, repr).Ok?
    ensures var u := FromDict(ToDict(t), now, repr).value;
            u.taskId == t.taskId && u.state == t.state && u.configuration == t.configuration &&
            u.productVariant == t.productVariant && u.date == now &&
            u.emptyKltPhyaddr == 0 && u.robot == map[] && u.taskEndTime == Json.Null
  {
    ToDictKeys(t);
    assert FromDict(ToDict(t), now, repr) == NewTask(t.taskId, now, t.state, t.configuration, repr);
  }

  /** The stored id, state and configuration, as `to_dict` writes them. */
  lemma ToDictKeys(t: Task)
    requires |t.ks| == 9
    ensures var d := ToDict(t);
            "task_id" in d && "state" in d && "configuration" in d &&
            d["task_id"] == Json.Int(t.taskId) && d["state"] == t.state && d["configuration"] == Json.Dict(t.configuration)
  {
  }

  /** A new task is well formed. */
  lemma NewTaskWellFormed(taskId: int, date: real, state: Json.Value, configuration: Json.Object,
                          repr: Json.Value -> string)
    requires NewTask(taskId, date, state, configuration, repr).Ok?
    ensures WellFormed(NewTask(taskId, date, state, configuration, repr).value, repr)
  {
  }
}
