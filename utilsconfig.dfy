/** The configuration helpers every processing stage imports: loading the
    YAML file, reading a top-level section with a default, and resolving a
    nested key path that must end at a string. YAML parsing and path
    expansion are left out. */
module UtilsConfig {
  import opened Wrappers
  import opened ConfigLoader

  /** `load_config(config_path)`: the parsed file, or `FileNotFoundError`
      when the path does not exist; the file's parse is a parameter. */
  function LoadConfig(exists_: bool, parsed: Config): (r: Result<Config, string>)
    ensures r.Err? <==> !exists_
    ensures r.Ok? ==> r.value == parsed
  {
    if !exists_ then Err("FileNotFoundError: config file not found") else Ok(parsed)
  }

  /** `default or {}` */
  function SectionDefault(default: Config): (r: Config)
    ensures Truthy(default) ==> r == default
    ensures !Truthy(default) ==> r == Dict(map[])
  {
    if Truthy(default) then default else Dict(map[])
  }

  /** `get_section(config, section, default)` */
  function GetSection(config: map<string, Config>, section: string, default: Config): Config {
    if section in config then config[section] else SectionDefault(default)
  }

  /** A present section is returned as stored, even a falsy one such as
      None or {}; a missing one gives the default, or {} when the default is
      None or empty. */
  lemma GetSectionMeaning(config: map<string, Config>, section: string, default: Config)
    ensures section in config ==> GetSection(config, section, default) == config[section]
    ensures section !in config && Truthy(default) ==> GetSection(config, section, default) == default
    ensures section !in config && (default == Config.Null || default == Dict(map[])) ==>
              GetSection(config, section, default) == Dict(map[])
  {
  }

  /** The walk of `resolve_path`: `sub.get(k, {})` at every key, which
      fails with `AttributeError` on a value that is not a dictionary, and
      `ValueError` unless the walk ends at a string. */
  function Resolve(sub: Config, keys: seq<string>): Result<string, string>
    decreases |keys|
  {
    if |keys| == 0 then
      (if sub.Str? then Ok(sub.s) else Err("ValueError: invalid path key"))
    else if !sub.Dict? then Err("AttributeError: value has no get")
    else Resolve(if keys[0] in sub.entries then sub.entries[keys[0]] else Dict(map[]), keys[1..])
  }

  /** `resolve_path(config, *keys)`, up to the final path expansion. */
  method ResolvePath(config: Config, keys: seq<string>) returns (r: Result<string, string>)
    ensures r == Resolve(config, keys)
  {
    var sub := config;
    var i := 0;
    while i < |keys|
      invariant i <= |keys|
      invariant Resolve(config, keys) == Resolve(sub, keys[i..])
    {
      if !sub.Dict? {
        return Err("AttributeError: value has no get");
      }
      assert keys[i..][1..] == keys[i + 1..];
      sub := if keys[i] in sub.entries then sub.entries[keys[i]] else Dict(map[]);
      i := i + 1;
    }
    if !sub.Str? {
      return Err("ValueError: invalid path key");
    }
    return Ok(sub.s);
  }

  /** Once a key is missing the walk holds {}, which never ends at a
      string: the result is `ValueError` whatever keys follow. */
  lemma {:induction false} ResolveFromEmpty(keys: seq<string>)
    ensures Resolve(Dict(map[]), keys) == Err("ValueError: invalid path key")
    decreases |keys|
  {
    if |keys| > 0 {
      ResolveFromEmpty(keys[1..]);
    }
  }

  /** `resolve_path` succeeds exactly when every key is present and the
      value reached is a string, and then gives that string; a missing key
      anywhere gives `ValueError`. */
  lemma {:induction false} ResolveMeaning(c: Config, keys: seq<string>)
    ensures Resolve(c, keys).Ok? <==> Reach(c, keys).Some? && Reach(c, keys).value.Str?
    ensures Resolve(c, keys).Ok? ==> Resolve(c, keys).value == Reach(c, keys).value.s
    ensures (exists i :: 0 <= i < |keys| && Reach(c, keys[..i]).Some? && Reach(c, keys[..i]).value.Dict?
                         && keys[i] !in Reach(c, keys[..i]).value.entries)
            ==> Resolve(c, keys) == Err("ValueError: invalid path key")
    decreases |keys|
  {
    if |keys| > 0 && c.Dict? {
      var rest := keys[1..];
      if keys[0] in c.entries {
        ResolveMeaning(c.entries[keys[0]], rest);
        forall i | 0 <= i < |keys| && Reach(c, keys[..i]).Some? && Reach(c, keys[..i]).value.Dict?
                   && keys[i] !in Reach(c, keys[..i]).value.entries
          ensures exists j :: 0 <= j < |rest| && Reach(c.entries[keys[0]], rest[..j]).Some?
                              && Reach(c.entries[keys[0]], rest[..j]).value.Dict?
                              && keys[j + 1] !in Reach(c.entries[keys[0]], rest[..j]).value.entries
                              && rest[j] == keys[j + 1]
        {
          assert i > 0 by {
            assert keys[..0] == [];
          }
          assert keys[..i][0] == keys[0] && keys[..i][1..] == rest[..i - 1];
          assert rest[i - 1] == keys[i];
        }
      } else {
        ResolveFromEmpty(rest);
        assert Reach(c, keys).None?;
      }
    }
  }
}
