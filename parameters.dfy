/** The parameter dictionary the engine is configured with, and the default
    values `init_parameters` writes into it. */
module Parameters {
  import opened Matrices

  /** A value stored in the dictionary: a string tag, a number, a flag, or a
      matrix (initW, initH). */
  datatype Value = Str(s: string) | Int(i: int) | Bool(b: bool) | Real(r: real) | Mat(m: Matrix)

  /** The caller's dictionary. It is an object: `init_parameters` and the
      engine write into the caller's own dictionary, not into a copy. */
  class ParamDict {
    var entries: map<string, Value>

    constructor (m: map<string, Value>)
      ensures entries == m
    {
      entries := m;
    }
  }

  /** m with key bound to v when key is absent; unchanged otherwise. */
  function SetDefault(m: map<string, Value>, key: string, v: Value): (r: map<string, Value>)
    ensures r.Keys == m.Keys + {key}
    ensures forall k :: k in m ==> r[k] == m[k]
    ensures key !in m ==> r[key] == v
  {
    if key in m then m else m[key := v]
  }

  /** The dictionary after `init_parameters`: the five recognised options are
      present, with KLDiv, 30, False, 'None' and 0 as defaults. */
  function WithDefaults(m: map<string, Value>): (r: map<string, Value>)
    ensures r.Keys == m.Keys + {"costFunc", "numIter", "fixW", "reg", "p"}
  {
    var m1 := SetDefault(m, "costFunc", Str("KLDiv"));
    var m2 := SetDefault(m1, "numIter", Int(30));
    var m3 := SetDefault(m2, "fixW", Bool(false));
    var m4 := SetDefault(m3, "reg", Str("None"));
    SetDefault(m4, "p", Int(0))
  }

  /** Entries the caller supplied are kept as they are. */
  lemma WithDefaultsKeeps(m: map<string, Value>)
    ensures forall k :: k in m ==> WithDefaults(m)[k] == m[k]
  {
  }

  /** A missing option gets its default: costFunc 'KLDiv', numIter 30, fixW
      False, reg 'None', p 0. */
  lemma WithDefaultsValues(m: map<string, Value>)
    ensures "costFunc" !in m ==> WithDefaults(m)["costFunc"] == Str("KLDiv")
    ensures "numIter" !in m ==> WithDefaults(m)["numIter"] == Int(30)
    ensures "fixW" !in m ==> WithDefaults(m)["fixW"] == Bool(false)
    ensures "reg" !in m ==> WithDefaults(m)["reg"] == Str("None")
    ensures "p" !in m ==> WithDefaults(m)["p"] == Int(0)
  {
  }

  /** Filling in defaults twice changes nothing. */
  lemma WithDefaultsIdempotent(m: map<string, Value>)
    ensures WithDefaults(WithDefaults(m)) == WithDefaults(m)
  {
  }

  /** Assigning a key the value it already holds leaves the map unchanged. */
  lemma RebindSame(m: map<string, Value>, key: string)
    requires key in m
    ensures m[key := m[key]] == m
  {
  }

  /** One line of `init_parameters`: the key is rebound to its own value when
      present, and bound to v otherwise. */
  method Default(param: ParamDict, key: string, v: Value)
    modifies param
    ensures param.entries == SetDefault(old(param.entries), key, v)
  {
    if key in param.entries {
      RebindSame(param.entries, key);
    }
    param.entries := param.entries[key := if key !in param.entries then v else param.entries[key]];
  }

  /** `init_parameters`: writes each default into the caller's dictionary
      unless the key is already there. */
  method InitParameters(param: ParamDict)
    modifies param
    ensures param.entries == WithDefaults(old(param.entries))
  {
    Default(param, "costFunc", Str("KLDiv"));
    Default(param, "numIter", Int(30));
    Default(param, "fixW", Bool(false));
    Default(param, "reg", Str("None"));
    Default(param, "p", Int(0));
  }
}
