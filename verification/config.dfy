/** The robot's dotted-path configuration store (src/utils/config.py): a
    tree of nested string-keyed maps with get/set addressed by "a.b.c" keys,
    and the recursive merge used to lay a loaded file over the defaults.
    The tree is an immutable value; YAML loading is outside the model. */
module ConfigTree {

  import opened Wrappers
  import opened Text

  /** The values a loaded configuration can hold. */
  datatype Value =
    | Int(i: int)
    | Real(r: real)
    | Str(s: string)
    | Bool(b: bool)
    | List(items: seq<Value>)
    | Null
    | Dict(entries: map<string, Value>)

  type Tree = map<string, Value>

  // ----- get -----

  /** The value reached by following `path` from v: each step needs the
      current node to be a map holding the next segment. */
  function GetPath(v: Value, path: seq<string>): (r: Option<Value>)
    ensures |path| == 0 ==> r == Some(v)
    ensures |path| > 0 && !(v.Dict? && path[0] in v.entries) ==> r.None?
    decreases |path|
  {
    if |path| == 0 then Some(v)
    else if v.Dict? && path[0] in v.entries then GetPath(v.entries[path[0]], path[1..])
    else None
  }

  /** Following a path in two parts is following each part in turn. */
  lemma {:induction false} GetPathAppend(v: Value, p: seq<string>, q: seq<string>)
    ensures GetPath(v, p + q) == (match GetPath(v, p) case Some(w) => GetPath(w, q) case None => None)
    decreases |p|
  {
    if |p| > 0 {
      assert (p + q)[0] == p[0] && (p + q)[1..] == p[1..] + q;
      if v.Dict? && p[0] in v.entries {
        GetPathAppend(v.entries[p[0]], p[1..], q);
      }
    } else {
      assert p + q == q;
    }
  }

  /** Config.get: the value at the dotted key, or the default as soon as a
      segment is missing or a node on the way is not a map. */
  function Get(tree: Tree, key: string, default: Value): (r: Value)
    ensures Split(key, '.')[0] !in tree ==> r == default
    ensures |Split(key, '.')| > 1 && Split(key, '.')[0] in tree && !tree[Split(key, '.')[0]].Dict? ==> r == default
    ensures |Split(key, '.')| == 1 && key in tree ==> r == tree[key]
  {
    GetPath(Dict(tree), Split(key, '.')).GetOr(default)
  }

  /** A key without a dot is looked up in the top level only. */
  lemma GetSingle(tree: Tree, key: string, d: Value)
    requires '.' !in key
    ensures Get(tree, key, d) == if key in tree then tree[key] else d
  {
    SplitNone(key, '.');
  }

  /** A dotted key is read one segment at a time: the first segment must
      name a map, and the rest of the key is read inside it; anything else
      gives the default. */
  lemma GetSegment(tree: Tree, a: string, rest: string, d: Value)
    requires '.' !in a
    ensures Get(tree, a + "." + rest, d) ==
            if a in tree && tree[a].Dict? then Get(tree[a].entries, rest, d) else d
  {
    SplitFirst(a, '.', rest);
    var tail := Split(rest, '.');
    assert ([a] + tail)[0] == a && ([a] + tail)[1..] == tail;
    if a in tree && tree[a].Dict? {
      assert tree[a] == Dict(tree[a].entries);
    }
  }

  // ----- set -----

  /** Config.set raises when an existing node on the way to the leaf is not a
      map; nothing has been changed by then. */
  datatype SetError = NotAMap(prefix: seq<string>)

  /** Some proper, non-empty prefix keys[..i] of the path reaches an existing
      node that is not a map. */
  predicate BlockedAt(tree: Tree, keys: seq<string>, i: int) {
    0 < i < |keys| && GetPath(Dict(tree), keys[..i]).Some? && !GetPath(Dict(tree), keys[..i]).value.Dict?
  }

  predicate Blocked(tree: Tree, keys: seq<string>) {
    exists i | 0 < i < |keys| :: BlockedAt(tree, keys, i)
  }

  /** A non-empty prefix is looked up through the first segment's child. */
  lemma PrefixThroughChild(tree: Tree, keys: seq<string>, i: int)
    requires 1 <= i <= |keys|
    ensures GetPath(Dict(tree), keys[..i]) ==
            (if keys[0] in tree then GetPath(tree[keys[0]], keys[1..][..i - 1]) else None)
  {
    assert keys[..i][0] == keys[0] && keys[..i][1..] == keys[1..][..i - 1];
  }

  /** Below the first segment, being blocked is being blocked in its child. */
  lemma BlockedInChild(tree: Tree, keys: seq<string>, i: int)
    requires 1 < i < |keys| && keys[0] in tree && tree[keys[0]].Dict?
    ensures BlockedAt(tree, keys, i) <==> BlockedAt(tree[keys[0]].entries, keys[1..], i - 1)
  {
    PrefixThroughChild(tree, keys, i);
    assert tree[keys[0]] == Dict(tree[keys[0]].entries);
  }

  /** The first-segment view of a blocked path. */
  lemma BlockedStep(tree: Tree, keys: seq<string>)
    requires |keys| > 1
    ensures Blocked(tree, keys) <==>
              (keys[0] in tree && !tree[keys[0]].Dict?) ||
              (keys[0] in tree && tree[keys[0]].Dict? && Blocked(tree[keys[0]].entries, keys[1..]))
  {
    var k := keys[0];
    PrefixThroughChild(tree, keys, 1);
    assert keys[1..][..0] == [];
    if k !in tree {
      forall i | 0 < i < |keys| ensures !BlockedAt(tree, keys, i) {
        PrefixThroughChild(tree, keys, i);
      }
    } else if tree[k].Dict? {
      assert !BlockedAt(tree, keys, 1);
      if Blocked(tree, keys) {
        var i :| 0 < i < |keys| && BlockedAt(tree, keys, i);
        BlockedInChild(tree, keys, i);
        assert BlockedAt(tree[k].entries, keys[1..], i - 1);
      }
      if Blocked(tree[k].entries, keys[1..]) {
        var j :| 0 < j < |keys[1..]| && BlockedAt(tree[k].entries, keys[1..], j);
        BlockedInChild(tree, keys, j + 1);
      }
    } else {
      assert BlockedAt(tree, keys, 1);
    }
  }

  /** The walk of Config.set: descend through existing maps, create an empty
      map for every missing segment, and assign the leaf. */
  function SetPath(tree: Tree, keys: seq<string>, value: Value): (r: Result<Tree, SetError>)
    requires |keys| > 0
    ensures r.Err? <==> Blocked(tree, keys)
    ensures r.Ok? ==> GetPath(Dict(r.value), keys) == Some(value)
    decreases |keys|
  {
    var k := keys[0];
    if |keys| == 1 then
      assert !Blocked(tree, keys);
      Ok(tree[k := value])
    else
      BlockedStep(tree, keys);
      var child := if k in tree then tree[k] else Dict(map[]);
      if !child.Dict? then Err(NotAMap(keys[..1]))
      else
        NothingBlocksInEmpty(keys[1..]);
        match SetPath(child.entries, keys[1..], value)
        case Ok(sub) => Ok(tree[k := Dict(sub)])
        case Err(e) => Err(NotAMap([k] + e.prefix))
  }

  /** An empty map blocks no path. */
  lemma NothingBlocksInEmpty(keys: seq<string>)
    ensures !Blocked(map[], keys)
  {
    forall i | 0 < i < |keys| ensures GetPath(Dict(map[]), keys[..i]).None? {
    }
  }

  /** Config.set on a dotted key: the new tree, or the error with the tree
      left as it was. */
  function Set(tree: Tree, key: string, value: Value): (r: (Tree, bool))
    ensures r.1 <==> !Blocked(tree, Split(key, '.'))
    ensures !r.1 ==> r.0 == tree
    ensures r.1 ==> Get(r.0, key, Null) == value
  {
    match SetPath(tree, Split(key, '.'), value)
    case Ok(t) => (t, true)
    case Err(_) => (tree, false)
  }

  /** p and keys part ways: neither is a prefix of the other. */
  predicate Diverges(p: seq<string>, keys: seq<string>) {
    exists i | 0 <= i < |p| && i < |keys| :: p[i] != keys[i]
  }

  /** Config.set touches nothing off its own path: every path that parts
      ways with the key reads as before. */
  lemma {:induction false} SetLeavesOthers(tree: Tree, keys: seq<string>, value: Value, p: seq<string>)
    requires |keys| > 0 && SetPath(tree, keys, value).Ok? && Diverges(p, keys)
    ensures GetPath(Dict(SetPath(tree, keys, value).value), p) == GetPath(Dict(tree), p)
    decreases |keys|
  {
    var k := keys[0];
    var t' := SetPath(tree, keys, value).value;
    var i :| 0 <= i < |p| && i < |keys| && p[i] != keys[i];
    if |keys| == 1 {
      assert t' == tree[k := value];
    } else {
      var child := if k in tree then tree[k] else Dict(map[]);
      var sub := SetPath(child.entries, keys[1..], value).value;
      assert t' == tree[k := Dict(sub)];
      if p[0] == k {
        assert p[1..][i - 1] != keys[1..][i - 1];
        SetLeavesOthers(child.entries, keys[1..], value, p[1..]);
        if k in tree {
          assert child == Dict(child.entries);
        }
      }
    }
  }

  /** Below the key, the tree after Config.set is the assigned value. */
  lemma SetSubtree(tree: Tree, keys: seq<string>, value: Value, q: seq<string>)
    requires |keys| > 0 && SetPath(tree, keys, value).Ok?
    ensures GetPath(Dict(SetPath(tree, keys, value).value), keys + q) == GetPath(value, q)
  {
    GetPathAppend(Dict(SetPath(tree, keys, value).value), keys, q);
  }

  // ----- deep update -----

  /** Config._deep_update: every key of the update lands in the base; where
      both sides hold maps they are merged recursively, otherwise the
      update's value replaces the base's. Keys only in the base stay. */
  function DeepUpdate(base: Tree, upd: Tree): (r: Tree)
    ensures r.Keys == base.Keys + upd.Keys
    ensures forall k :: k in base && k !in upd ==> r[k] == base[k]
    ensures forall k :: k in upd && !(k in base && base[k].Dict? && upd[k].Dict?) ==> r[k] == upd[k]
    ensures forall k :: k in upd && upd[k].Dict? ==> r[k].Dict?
    decreases Dict(upd)
  {
    map k | k in base.Keys + upd.Keys ::
      if k in upd then
        (if k in base && base[k].Dict? && upd[k].Dict? then Dict(DeepUpdate(base[k].entries, upd[k].entries))
         else upd[k])
      else base[k]
  }

  /** Every leaf the update holds (a value that is not a map) can be read at
      the same path after the update. */
  lemma {:induction false} DeepUpdateLeaf(base: Tree, upd: Tree, p: seq<string>)
    requires GetPath(Dict(upd), p).Some? && !GetPath(Dict(upd), p).value.Dict?
    ensures GetPath(Dict(DeepUpdate(base, upd)), p) == GetPath(Dict(upd), p)
    decreases |p|
  {
    var k := p[0];
    var r := DeepUpdate(base, upd);
    if |p| > 1 && k in base && base[k].Dict? && upd[k].Dict? {
      assert r[k] == Dict(DeepUpdate(base[k].entries, upd[k].entries));
      assert upd[k] == Dict(upd[k].entries);
      DeepUpdateLeaf(base[k].entries, upd[k].entries, p[1..]);
    } else if |p| > 1 {
      assert r[k] == upd[k];
    }
  }

  /** The update does not reach path p: some segment along p is absent from
      the update, before which the update holds maps all the way down. */
  predicate Untouched(upd: Tree, p: seq<string>)
    decreases |p|
  {
    |p| > 0 &&
    (p[0] !in upd || (|p| > 1 && upd[p[0]].Dict? && Untouched(upd[p[0]].entries, p[1..])))
  }

  /** Whatever the base holds at a path the update does not reach survives
      the merge: maps on both sides are merged, not replaced. */
  lemma {:induction false} DeepUpdateKeepsBase(base: Tree, upd: Tree, p: seq<string>)
    requires GetPath(Dict(base), p).Some? && Untouched(upd, p)
    ensures GetPath(Dict(DeepUpdate(base, upd)), p) == GetPath(Dict(base), p)
    decreases |p|
  {
    var k := p[0];
    var r := DeepUpdate(base, upd);
    if k in upd {
      assert base[k] == Dict(base[k].entries);
      assert r[k] == Dict(DeepUpdate(base[k].entries, upd[k].entries));
      DeepUpdateKeepsBase(base[k].entries, upd[k].entries, p[1..]);
    }
  }

  /** Merging a tree into itself changes nothing. */
  lemma {:induction false} DeepUpdateSelf(t: Tree)
    ensures DeepUpdate(t, t) == t
    decreases Dict(t)
  {
    var r := DeepUpdate(t, t);
    forall k | k in t ensures r[k] == t[k] {
      if t[k].Dict? {
        DeepUpdateSelf(t[k].entries);
        assert t[k] == Dict(t[k].entries);
      }
    }
  }

  /** Applying the same update twice is applying it once. */
  lemma {:induction false} DeepUpdateIdempotent(base: Tree, upd: Tree)
    ensures DeepUpdate(DeepUpdate(base, upd), upd) == DeepUpdate(base, upd)
    decreases Dict(upd)
  {
    var once := DeepUpdate(base, upd);
    var twice := DeepUpdate(once, upd);
    forall k | k in once ensures twice[k] == once[k] {
      if k in upd && upd[k].Dict? {
        var u := upd[k].entries;
        if k in base && base[k].Dict? {
          DeepUpdateIdempotent(base[k].entries, u);
        } else {
          assert once[k] == upd[k];
          DeepUpdateSelf(u);
          assert upd[k] == Dict(u);
        }
      }
    }
  }

  // ----- defaults -----

  /** Config.DEFAULTS. */
  const DEFAULTS: Tree := map[
    "camera" := Dict(map[
      "resolution" := List([Int(640), Int(480)]),
      "framerate" := Int(30),
      "sensor_mode" := Int(0)]),
    "detection" := Dict(map[
      "model_path" := Str("models/ssd_mobilenet_v2_coco_quant_postprocess_edgetpu.tflite"),
      "labels_path" := Str("models/coco_labels.txt"),
      "confidence_threshold" := Real(0.5)]),
    "tracking" := Dict(map[
      "pid_kp" := Real(0.5),
      "pid_ki" := Real(0.1),
      "pid_kd" := Real(0.2),
      "servo_min_angle" := Int(-90),
      "servo_max_angle" := Int(90)]),
    "arduino" := Dict(map[
      "port" := Str("/dev/ttyACM0"),
      "baudrate" := Int(9600),
      "timeout" := Real(1.0)]),
    "positioning" := Dict(map[
      "servo_range" := Int(180),
      "distance_min" := Int(10),
      "distance_max" := Int(300)]),
    "system" := Dict(map[
      "target_fps" := Int(30),
      "inference_timeout" := Int(20),
      "debug" := Bool(false)])]

  /** A two-segment dotted key splits into its segments. */
  lemma SplitDotted(a: string, b: string)
    requires '.' !in a && '.' !in b
    ensures Split(a + "." + b, '.') == [a, b]
  {
    SplitJoin([a, b], '.');
    assert Join([a, b], ".") == a + "." + Join([b], ".");
  }

  /** Get on a two-segment dotted key is a two-step path lookup. */
  lemma GetDotted(tree: Tree, a: string, b: string, d: Value)
    requires '.' !in a && '.' !in b
    ensures Get(tree, a + "." + b, d) == GetPath(Dict(tree), [a, b]).GetOr(d)
  {
    SplitDotted(a, b);
  }

  /** "camera.<leaf>" is the two segments joined by a dot. */
  lemma CameraKey(leaf: string, key: string)
    requires leaf == "framerate" || leaf == "missing"
    requires key == "camera." + leaf
    ensures key == "camera" + "." + leaf && '.' !in "camera" && '.' !in leaf
  {
  }

  /** Reading the defaults: a present key gives its value. */
  lemma DefaultsFramerate(key: string, d: Value)
    requires key == "camera.framerate"
    ensures Get(DEFAULTS, key, d) == Int(30)
  {
    CameraKey("framerate", key);
    assert GetPath(Dict(DEFAULTS), ["camera", "framerate"]) == Some(Int(30));
    GetDotted(DEFAULTS, "camera", "framerate", d);
  }

  /** A key missing from the defaults gives the caller's default. */
  lemma DefaultsMissing(key: string, d: Value)
    requires key == "camera.missing"
    ensures Get(DEFAULTS, key, d) == d
  {
    CameraKey("missing", key);
    assert GetPath(Dict(DEFAULTS), ["camera", "missing"]) == None;
    GetDotted(DEFAULTS, "camera", "missing", d);
  }

  /** A path reaching below a leaf (an int here) finds nothing. */
  lemma DefaultsBelowLeaf()
    ensures GetPath(Dict(DEFAULTS), ["arduino", "baudrate", "x"]).None?
  {
  }
}
