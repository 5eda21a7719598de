/** The parsed YAML configuration and the nested lookup of
    `configs/config_loader.py`: walk a key path through nested dictionaries,
    giving the default as soon as a step is not a dictionary or lacks the
    key. */
module ConfigLoader {
  import opened Wrappers

  /** A YAML value as `yaml.safe_load` returns it (floats left out). */
  datatype Config =
    | Dict(entries: map<string, Config>)
    | List(items: seq<Config>)
    | Str(s: string)
    | Num(n: int)
    | Bool(b: bool)
    | Null

  /** Python truthiness of a value. */
  predicate Truthy(c: Config) {
    match c
    case Dict(m) => |m| > 0
    case List(xs) => |xs| > 0
    case Str(s) => s != ""
    case Num(n) => n != 0
    case Bool(b) => b
    case Null => false
  }

  /** The value a key path reaches when every step is a dictionary holding
      the next key, and None otherwise. */
  function Reach(c: Config, keys: seq<string>): Option<Config>
    decreases |keys|
  {
    if |keys| == 0 then Some(c)
    else if c.Dict? && keys[0] in c.entries then Reach(c.entries[keys[0]], keys[1..])
    else None
  }

  /** `get(config, *keys, default=default)` */
  function Get(c: Config, keys: seq<string>, default: Config): Config
    decreases |keys|
  {
    if |keys| == 0 then c
    else if !c.Dict? || keys[0] !in c.entries then default
    else Get(c.entries[keys[0]], keys[1..], default)
  }

  /** The loop of `get`. */
  method GetLoop(config: Config, keys: seq<string>, default: Config) returns (r: Config)
    ensures r == Get(config, keys, default)
  {
    var cur := config;
    var i := 0;
    while i < |keys|
      invariant i <= |keys|
      invariant Get(config, keys, default) == Get(cur, keys[i..], default)
    {
      if !cur.Dict? || keys[i] !in cur.entries {
        return default;
      }
      assert keys[i..][1..] == keys[i + 1..];
      cur := cur.entries[keys[i]];
      i := i + 1;
    }
    return cur;
  }

  /** `get` gives the reached value whenever every key is present, even a
      None value, and the default otherwise; with no keys it gives the
      configuration itself. */
  lemma {:induction false} GetMeaning(c: Config, keys: seq<string>, default: Config)
    ensures Reach(c, keys).Some? ==> Get(c, keys, default) == Reach(c, keys).value
    ensures Reach(c, keys).None? ==> Get(c, keys, default) == default
    ensures Reach(c, keys) == Some(Config.Null) ==> Get(c, keys, default) == Config.Null
    ensures keys == [] ==> Get(c, keys, default) == c
    decreases |keys|
  {
    if |keys| > 0 && c.Dict? && keys[0] in c.entries {
      GetMeaning(c.entries[keys[0]], keys[1..], default);
    }
  }

  /** A path is reached in two legs: the first keys, then the rest from the
      value they reach. */
  lemma {:induction false} ReachAppend(c: Config, a: seq<string>, b: seq<string>)
    ensures Reach(c, a + b) == if Reach(c, a).Some? then Reach(Reach(c, a).value, b) else None
    decreases |a|
  {
    if |a| > 0 {
      assert (a + b)[0] == a[0];
      assert (a + b)[1..] == a[1..] + b;
      if c.Dict? && a[0] in c.entries {
        ReachAppend(c.entries[a[0]], a[1..], b);
      }
    } else {
      assert a + b == b;
    }
  }

  /** A walk on k1..kn equals a walk on the later keys started from the
      value the first keys reach. */
  lemma GetComposes(c: Config, a: seq<string>, b: seq<string>, default: Config)
    requires Reach(c, a).Some?
    ensures Get(c, a + b, default) == Get(Reach(c, a).value, b, default)
  {
    ReachAppend(c, a, b);
    GetMeaning(c, a + b, default);
    GetMeaning(Reach(c, a).value, b, default);
  }
}
