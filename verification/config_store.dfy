/** The in-memory configuration of `ConfigManager` in
    backend/ui/config_manager.py: a JSON object, updated through dotted
    paths, with per-gesture settings under "gestures". Saving to disk is
    left out. Where Python would raise (indexing into a value that is not an
    object), the model returns `None`. */
module ConfigStore {
  import opened Prelude

  /** A JSON value. */
  datatype Value =
    | Null
    | Flag(b: bool)
    | Num(n: real)
    | Text(s: string)
    | Arr(items: seq<Value>)
    | Obj(fields: map<string, Value>)

  type Config = map<string, Value>

  const Gestures := "gestures"
  const Enabled := "enabled"

  // ---------------------------------------------------------------------
  // Dotted keys
  // ---------------------------------------------------------------------

  function FirstDot(s: string): (i: nat)
    requires '.' in s
    ensures i < |s| && s[i] == '.' && '.' !in s[..i]
  {
    if s[0] == '.' then 0
    else
      assert '.' in s[1..] by {
        var j :| 0 <= j < |s| && s[j] == '.';
        assert s[1..][j - 1] == '.';
      }
      var i := 1 + FirstDot(s[1..]);
      assert s[..i] == [s[0]] + s[1..][..i - 1];
      i
  }

  /** `key.split('.')`. */
  function Split(s: string): (parts: seq<string>)
    ensures |parts| >= 1
    ensures |parts| == 1 <==> '.' !in s
    ensures forall i :: 0 <= i < |parts| ==> '.' !in parts[i]
    decreases |s|
  {
    if '.' !in s then [s]
    else
      var i := FirstDot(s);
      [s[..i]] + Split(s[i + 1..])
  }

  /** `'.'.join(parts)`. */
  function Join(parts: seq<string>): string
    requires |parts| >= 1
  {
    if |parts| == 1 then parts[0] else parts[0] + "." + Join(parts[1..])
  }

  /** Splitting on dots loses nothing: joining the parts gives the key back. */
  lemma {:induction false} JoinSplit(s: string)
    ensures Join(Split(s)) == s
    decreases |s|
  {
    if '.' in s {
      var i := FirstDot(s);
      JoinSplit(s[i + 1..]);
      assert s == s[..i] + "." + s[i + 1..];
    }
  }

  /** The first dot of `a + "." + b` is the one after `a` when `a` has none. */
  lemma {:induction false} DotAfter(a: string, b: string)
    requires '.' !in a
    ensures '.' in a + "." + b && FirstDot(a + "." + b) == |a|
    decreases |a|
  {
    var s := a + "." + b;
    assert s[|a|] == '.';
    if a != [] {
      assert s[1..] == a[1..] + "." + b;
      DotAfter(a[1..], b);
    }
  }

  /** And the parts of a joined path are the path, when no part has a dot. */
  lemma {:induction false} SplitJoin(parts: seq<string>)
    requires |parts| >= 1
    requires forall i :: 0 <= i < |parts| ==> '.' !in parts[i]
    ensures Split(Join(parts)) == parts
    decreases |parts|
  {
    if |parts| > 1 {
      var s := Join(parts);
      var rest := Join(parts[1..]);
      assert s == parts[0] + "." + rest;
      DotAfter(parts[0], rest);
      var i := FirstDot(s);
      assert s[..i] == parts[0];
      assert s[i + 1..] == rest;
      SplitJoin(parts[1..]);
    }
  }

  // ---------------------------------------------------------------------
  // Paths
  // ---------------------------------------------------------------------

  /** The value at a path, if every step finds an object with that key. */
  function GetPath(m: map<string, Value>, path: seq<string>): Option<Value>
    requires |path| >= 1
    decreases |path|
  {
    if path[0] !in m then None
    else if |path| == 1 then Some(m[path[0]])
    else if m[path[0]].Obj? then GetPath(m[path[0]].fields, path[1..])
    else None
  }

  /** The walk of `update_config` can reach the leaf: every intermediate
      that already exists is an object. */
  predicate Walkable(m: map<string, Value>, path: seq<string>)
    requires |path| >= 1
    decreases |path|
  {
    |path| == 1 || path[0] !in m
    || (m[path[0]].Obj? && Walkable(m[path[0]].fields, path[1..]))
  }

  /** Two paths that part ways: at some depth they name different keys. */
  predicate Diverge(p: seq<string>, q: seq<string>)
    decreases |p|
  {
    |p| >= 1 && |q| >= 1 && (p[0] != q[0] || Diverge(p[1..], q[1..]))
  }

  /** The nested-key branch of `update_config`: walk the path, creating
      missing intermediate objects, and set the leaf. `None` when an
      existing intermediate is not an object (Python raises there). */
  function SetPath(m: map<string, Value>, path: seq<string>, v: Value): (r: Option<map<string, Value>>)
    requires |path| >= 1
    ensures r.Some? <==> Walkable(m, path)
    ensures r.Some? ==> r.value.Keys == m.Keys + {path[0]}
    ensures r.Some? ==> forall k :: k in m && k != path[0] ==> r.value[k] == m[k]
    decreases |path|
  {
    var k := path[0];
    if |path| == 1 then Some(m[k := v])
    else if k !in m then
      var inner := SetPath(map[], path[1..], v);
      Some(m[k := Obj(inner.value)])
    else if m[k].Obj? then
      match SetPath(m[k].fields, path[1..], v)
      case None => None
      case Some(f) => Some(m[k := Obj(f)])
    else None
  }

  /** After a successful set, the path reads back the value. */
  lemma {:induction false} SetThenGet(m: map<string, Value>, path: seq<string>, v: Value)
    requires |path| >= 1 && Walkable(m, path)
    ensures GetPath(SetPath(m, path, v).value, path) == Some(v)
    decreases |path|
  {
    if |path| > 1 {
      var k := path[0];
      if k !in m {
        SetThenGet(map[], path[1..], v);
      } else {
        SetThenGet(m[k].fields, path[1..], v);
      }
    }
  }

  /** And every path that parts ways with it reads as before: the siblings
      along the way are preserved. */
  lemma {:induction false} SetKeepsOthers(m: map<string, Value>, path: seq<string>, v: Value, q: seq<string>)
    requires |path| >= 1 && Walkable(m, path)
    requires Diverge(path, q)
    ensures GetPath(SetPath(m, path, v).value, q) == GetPath(m, q)
    decreases |path|
  {
    var m' := SetPath(m, path, v).value;
    var k := path[0];
    if q[0] != k {
    } else {
      assert Diverge(path[1..], q[1..]);
      if k !in m {
        SetKeepsOthers(map[], path[1..], v, q[1..]);
        assert GetPath(map[], q[1..]) == None;
      } else {
        SetKeepsOthers(m[k].fields, path[1..], v, q[1..]);
      }
    }
  }

  // ---------------------------------------------------------------------
  // update_config
  // ---------------------------------------------------------------------

  /** One entry of `update_config`: a dotted key walks the path, any other
      key is set at the top level. */
  function UpdateOne(cfg: Config, key: string, v: Value): (r: Option<Config>)
    ensures '.' !in key ==> r == Some(cfg[key := v])
    ensures r.Some? <==> Walkable(cfg, Split(key))
    ensures r.Some? ==> GetPath(r.value, Split(key)) == Some(v)
  {
    if '.' !in key then Some(cfg[key := v])
    else if Walkable(cfg, Split(key)) then
      SetThenGet(cfg, Split(key), v);
      SetPath(cfg, Split(key), v)
    else None
  }

  /** `update_config`: the entries in order. The flag is false when an entry
      raised; the entries before it stay applied and the rest are skipped. */
  function UpdateConfig(cfg: Config, updates: seq<(string, Value)>): (r: (Config, bool))
    ensures updates == [] ==> r == (cfg, true)
    ensures updates != [] && UpdateOne(cfg, updates[0].0, updates[0].1).None? ==> r == (cfg, false)
    ensures (forall i :: 0 <= i < |updates| ==> '.' !in updates[i].0) ==> r.1
    ensures r.1 && updates != [] ==>
      GetPath(r.0, Split(updates[|updates| - 1].0)) == Some(updates[|updates| - 1].1)
    decreases |updates|
  {
    if updates == [] then (cfg, true)
    else
      match UpdateOne(cfg, updates[0].0, updates[0].1)
      case None => (cfg, false)
      case Some(c1) => UpdateConfig(c1, updates[1..])
  }

  /** Applying two batches in turn is applying their concatenation. */
  lemma {:induction false} UpdateConfigAppend(cfg: Config, a: seq<(string, Value)>, b: seq<(string, Value)>)
    requires UpdateConfig(cfg, a).1
    ensures UpdateConfig(cfg, a + b) == UpdateConfig(UpdateConfig(cfg, a).0, b)
    decreases |a|
  {
    if a == [] {
      assert a + b == b;
    } else {
      assert (a + b)[1..] == a[1..] + b;
      UpdateConfigAppend(UpdateOne(cfg, a[0].0, a[0].1).value, a[1..], b);
    }
  }

  /** The last entry wins: after a successful update, the key of its last
      entry reads back that entry's value. */
  lemma LastEntryWins(cfg: Config, updates: seq<(string, Value)>, key: string, v: Value)
    requires UpdateConfig(cfg, updates + [(key, v)]).1
    ensures GetPath(UpdateConfig(cfg, updates + [(key, v)]).0, Split(key)) == Some(v)
  {
    var before := UpdateConfig(cfg, updates);
    if !before.1 {
      NoRecovery(cfg, updates, [(key, v)]);
    }
    UpdateConfigAppend(cfg, updates, [(key, v)]);
  }

  /** A batch that raises never reports success once more entries follow. */
  lemma {:induction false} NoRecovery(cfg: Config, a: seq<(string, Value)>, b: seq<(string, Value)>)
    requires !UpdateConfig(cfg, a).1
    ensures !UpdateConfig(cfg, a + b).1
    decreases |a|
  {
    assert a != [];
    assert (a + b)[1..] == a[1..] + b;
    if UpdateOne(cfg, a[0].0, a[0].1).Some? {
      NoRecovery(UpdateOne(cfg, a[0].0, a[0].1).value, a[1..], b);
    }
  }

  /** An undotted entry sets exactly its top-level key. */
  lemma UndottedSetsTopLevel(cfg: Config, key: string, v: Value)
    requires '.' !in key
    ensures UpdateConfig(cfg, [(key, v)]) == (cfg[key := v], true)
    ensures forall k :: k in cfg && k != key ==> UpdateConfig(cfg, [(key, v)]).0[k] == cfg[k]
  {
    assert [(key, v)][1..] == [];
  }

  // ---------------------------------------------------------------------
  // Gesture settings
  // ---------------------------------------------------------------------

  /** `get_gesture_config`: the gesture's settings, or an empty object when
      "gestures" or the gesture is absent. `None` when "gestures" is not an
      object. */
  function GetGestureConfig(cfg: Config, name: string): (r: Option<Value>)
    ensures (Gestures !in cfg || (cfg[Gestures].Obj? && name !in cfg[Gestures].fields))
            ==> r == Some(Obj(map[]))
    ensures Gestures in cfg && cfg[Gestures].Obj? && name in cfg[Gestures].fields
            ==> r == GetPath(cfg, [Gestures, name])
    ensures r.None? <==> Gestures in cfg && !cfg[Gestures].Obj?
  {
    var gs := if Gestures in cfg then cfg[Gestures] else Obj(map[]);
    if !gs.Obj? then None
    else Some(if name in gs.fields then gs.fields[name] else Obj(map[]))
  }

  /** `is_gesture_enabled`: the stored "enabled" value, true when it or the
      gesture is absent. `None` where Python raises. */
  function IsGestureEnabled(cfg: Config, name: string): (r: Option<Value>)
    ensures GetGestureConfig(cfg, name) == Some(Obj(map[])) ==> r == Some(Flag(true))
    ensures r.Some? <==> GetGestureConfig(cfg, name).Some? && GetGestureConfig(cfg, name).value.Obj?
    ensures r.Some? && Enabled in GetGestureConfig(cfg, name).value.fields
            ==> r == Some(GetGestureConfig(cfg, name).value.fields[Enabled])
    ensures r.Some? && Enabled !in GetGestureConfig(cfg, name).value.fields
            ==> r == Some(Flag(true))
  {
    match GetGestureConfig(cfg, name)
    case None => None
    case Some(g) =>
      if !g.Obj? then None
      else Some(if Enabled in g.fields then g.fields[Enabled] else Flag(true))
  }

  /** `set_gesture_config`: store the settings under the gesture's name,
      creating "gestures" when missing. */
  function SetGestureConfig(cfg: Config, name: string, v: Value): (r: Option<Config>)
    ensures r.Some? <==> Gestures !in cfg || cfg[Gestures].Obj?
    ensures r.Some? ==> GetGestureConfig(r.value, name) == Some(v)
    ensures r.Some? ==> r.value.Keys == cfg.Keys + {Gestures}
    ensures r.Some? ==> forall k :: k in cfg && k != Gestures ==> k in r.value && r.value[k] == cfg[k]
    ensures r.Some? ==>
      (forall g :: g != name && Gestures in cfg && g in cfg[Gestures].fields
         ==> GetGestureConfig(r.value, g) == GetGestureConfig(cfg, g))
  {
    if Gestures !in cfg then Some(cfg[Gestures := Obj(map[name := v])])
    else if cfg[Gestures].Obj? then Some(cfg[Gestures := Obj(cfg[Gestures].fields[name := v])])
    else None
  }

  /** `enable_gesture`: set the gesture's "enabled" flag. */
  function EnableGesture(cfg: Config, name: string, e: bool): (r: Option<Config>)
    ensures r.Some? <==> GetGestureConfig(cfg, name).Some? && GetGestureConfig(cfg, name).value.Obj?
    ensures r.Some? ==> IsGestureEnabled(r.value, name) == Some(Flag(e))
    ensures r.Some? ==> forall k :: k in cfg && k != Gestures ==> k in r.value && r.value[k] == cfg[k]
  {
    match GetGestureConfig(cfg, name)
    case None => None
    case Some(g) =>
      if !g.Obj? then None
      else SetGestureConfig(cfg, name, Obj(g.fields[Enabled := Flag(e)]))
  }

  /** After `enable_gesture(g, e)` the gesture reads as enabled exactly when
      `e`; its other settings, the other gestures and the other top-level
      keys are as before. It fails only where Python raises. */
  lemma EnableThenQuery(cfg: Config, name: string, e: bool)
    ensures EnableGesture(cfg, name, e).Some? <==>
      GetGestureConfig(cfg, name).Some? && GetGestureConfig(cfg, name).value.Obj?
    ensures EnableGesture(cfg, name, e).Some? ==>
      var c := EnableGesture(cfg, name, e).value;
      var before := GetGestureConfig(cfg, name).value.fields;
      IsGestureEnabled(c, name) == Some(Flag(e))
      && GetGestureConfig(c, name).value.Obj?
      && (forall f :: f in before && f != Enabled ==>
            f in GetGestureConfig(c, name).value.fields
            && GetGestureConfig(c, name).value.fields[f] == before[f])
      && (forall k :: k in cfg && k != Gestures ==> c[k] == cfg[k])
      && (forall g :: g != name && Gestures in cfg && g in cfg[Gestures].fields
            ==> GetGestureConfig(c, g) == GetGestureConfig(cfg, g))
  {
  }
}
