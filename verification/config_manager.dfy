/**
 * The application configuration (config_manager.py): a JSON document read at
 * start-up, dotted-path reads and writes into its nested objects, the order
 * in which a GitHub token is chosen, and the helper that cuts a key into
 * base64-encoded parts.
 *
 * The configuration file, the environment variable and base64 are inputs:
 * the file's decoded content is a constructor argument, the environment
 * value a method argument, and base64 an injective wrapper.
 */
module Configuration {
  import opened Common

  // ---------------------------------------------------------------------
  // Dotted paths.

  /** The value at `keys` below `node`, or None when a step is missing or
      passes through something that is not an object. */
  function Lookup(node: Json, keys: seq<string>): Option<Json>
  {
    if |keys| == 0 then Some(node)
    else if node.JObj? && keys[0] in node.fields then Lookup(node.fields[keys[0]], keys[1..])
    else None
  }

  /** `get(key, default)` on the segments of the key. */
  function GetPath(node: Json, keys: seq<string>, default: Json): Json
  {
    match Lookup(node, keys)
    case Some(v) => v
    case None => default
  }

  /** `set` on the segments of the key: missing objects on the way are
      created, the leaf is assigned.  None where Python raises TypeError
      because an existing step on the path is not an object. */
  function SetPath(node: Json, keys: seq<string>, v: Json): (r: Option<Json>)
    requires |keys| >= 1
    ensures r.Some? ==> (r.value.JObj? && node.JObj? && keys[0] in r.value.fields
      && r.value.fields == node.fields[keys[0] := r.value.fields[keys[0]]])
    decreases |keys|
  {
    if !node.JObj? then None
    else if |keys| == 1 then Some(JObj(node.fields[keys[0] := v]))
    else
      var child := if keys[0] in node.fields then node.fields[keys[0]] else JObj(map[]);
      match SetPath(child, keys[1..], v)
      case None => None
      case Some(c) => Some(JObj(node.fields[keys[0] := c]))
  }

  /** After a successful set, the same path reads back the value written. */
  lemma {:induction false} SetThenGet(node: Json, keys: seq<string>, v: Json, default: Json)
    requires |keys| >= 1 && SetPath(node, keys, v).Some?
    ensures Lookup(SetPath(node, keys, v).value, keys) == Some(v)
    ensures GetPath(SetPath(node, keys, v).value, keys, default) == v
    decreases |keys|
  {
    if |keys| > 1 {
      var child := if keys[0] in node.fields then node.fields[keys[0]] else JObj(map[]);
      SetThenGet(child, keys[1..], v, default);
    }
  }

  /** Two paths part at some segment both of them have. */
  predicate Diverge(p: seq<string>, q: seq<string>)
  {
    exists i :: 0 <= i < |p| && i < |q| && p[i] != q[i]
  }

  /** A set leaves every path that parts from the written one unchanged. */
  lemma {:induction false} SetKeepsOthers(node: Json, keys: seq<string>, v: Json, p: seq<string>)
    requires |keys| >= 1 && SetPath(node, keys, v).Some?
    requires Diverge(p, keys)
    ensures Lookup(SetPath(node, keys, v).value, p) == Lookup(node, p)
    decreases |keys|
  {
    var i :| 0 <= i < |p| && i < |keys| && p[i] != keys[i];
    if p[0] != keys[0] {
      var after := SetPath(node, keys, v).value;
      assert p[0] in after.fields <==> p[0] in node.fields;
    } else {
      assert i > 0 && |keys| > 1;
      var child := if keys[0] in node.fields then node.fields[keys[0]] else JObj(map[]);
      assert p[1..][i - 1] != keys[1..][i - 1];
      SetKeepsOthers(child, keys[1..], v, p[1..]);
    }
  }

  /** A set fails exactly when some existing step on the path, the
      document itself included, is not an object. */
  lemma {:induction false} SetFailsIff(node: Json, keys: seq<string>, v: Json)
    requires |keys| >= 1
    ensures SetPath(node, keys, v).None? <==>
      exists i :: 0 <= i < |keys| && Lookup(node, keys[..i]).Some? && !Lookup(node, keys[..i]).value.JObj?
    decreases |keys|
  {
    assert keys[..0] == [];
    if node.JObj? && |keys| > 1 {
      var child := if keys[0] in node.fields then node.fields[keys[0]] else JObj(map[]);
      SetFailsIff(child, keys[1..], v);
      forall i | 1 <= i < |keys|
        ensures Lookup(node, keys[..i]) == (if keys[0] in node.fields then Lookup(child, keys[1..][..i - 1]) else None)
      {
        assert keys[..i][1..] == keys[1..][..i - 1];
      }
      if keys[0] !in node.fields {
        NeverFailsBelowFresh(keys[1..], v);
      }
      if SetPath(child, keys[1..], v).None? {
        var j :| 0 <= j < |keys[1..]| && Lookup(child, keys[1..][..j]).Some? && !Lookup(child, keys[1..][..j]).value.JObj?;
        assert Lookup(node, keys[..j + 1]) == Lookup(child, keys[1..][..j]);
      }
    }
  }

  /** Writing below a fresh object always succeeds. */
  lemma {:induction false} NeverFailsBelowFresh(keys: seq<string>, v: Json)
    requires |keys| >= 1
    ensures SetPath(JObj(map[]), keys, v).Some?
    ensures forall i :: 0 < i < |keys| ==> Lookup(JObj(map[]), keys[..i]).None?
    decreases |keys|
  {
    if |keys| > 1 {
      NeverFailsBelowFresh(keys[1..], v);
    }
  }

  // ---------------------------------------------------------------------
  // Tokens.

  /** The value returned by get_deploy_key when the embedded key is used. */
  const DeployKeyPlaceholder: string := "ghp_YourActualDeployKeyHere"

  /** An environment value is used only when it is a non-empty string. */
  predicate Given(env: Option<string>)
  {
    env.Some? && env.value != ""
  }

  // ---------------------------------------------------------------------
  // Key obfuscation.

  /** A base64-encoded part; decoding gives back the text it encodes. */
  datatype Base64 = Base64(decoded: string)

  /** The parts decoded and concatenated. */
  function Decoded(parts: seq<Base64>): string
  {
    if |parts| == 0 then "" else Decoded(parts[..|parts| - 1]) + parts[|parts| - 1].decoded
  }

  /** Every part but the last holds exactly `size` characters, the last one
      between 1 and `size`. */
  predicate Sized(parts: seq<Base64>, size: nat)
  {
    forall j :: 0 <= j < |parts| ==>
      0 < |parts[j].decoded| <= size && (j < |parts| - 1 ==> |parts[j].decoded| == size)
  }

  class ConfigManager {
    var config: Json

    /** `__init__`/`load_config`: the decoded file, or an empty object when
        the file is missing or cannot be read or decoded (`file` is None). */
    constructor (file: Option<Json>)
      ensures config == (if file.Some? then file.value else JObj(map[]))
    {
      config := if file.Some? then file.value else JObj(map[]);
    }

    /** get: walks the dotted segments; a missing segment or a step through
        something other than an object gives the default. */
    method Get(key: string, default: Json) returns (r: Json)
      ensures r == GetPath(config, Split(key, '.'), default)
      ensures Lookup(config, Split(key, '.')).None? ==> r == default
    {
      var keys := Split(key, '.');
      ghost var found := Lookup(config, keys);
      var value := config;
      var i := 0;
      while i < |keys|
        invariant 0 <= i <= |keys|
        invariant found == Lookup(value, keys[i..])
      {
        if !(value.JObj? && keys[i] in value.fields) {
          return default;
        }
        ghost var rest := keys[i..];
        assert rest[0] == keys[i] && rest[1..] == keys[i + 1..];
        value := value.fields[keys[i]];
        i := i + 1;
      }
      assert keys[i..] == [];
      r := value;
    }

    /** set: on success the document holds the new value at the path and
        nothing that parts from the path changes; on failure (TypeError) the
        document is unchanged.  Writing the file afterwards is not modelled. */
    method Set(key: string, v: Json) returns (ok: bool)
      modifies this
      ensures var r := SetPath(old(config), Split(key, '.'), v);
        ok == r.Some? && config == (if r.Some? then r.value else old(config))
      ensures ok ==> GetPath(config, Split(key, '.'), JNull) == v
      ensures ok ==> forall p :: Diverge(p, Split(key, '.')) ==> Lookup(config, p) == Lookup(old(config), p)
    {
      var keys := Split(key, '.');
      var r := SetPath(config, keys, v);
      if r.None? {
        return false;
      }
      SetThenGet(config, keys, v, JNull);
      forall p | Diverge(p, keys) ensures Lookup(r.value, p) == Lookup(config, p) {
        SetKeepsOthers(config, keys, v, p);
      }
      config := r.value;
      ok := true;
    }

    /** get_deploy_key: the environment value wins; with the flag
        `github.use_deploy_key` not truthy there is no key; otherwise the
        fixed placeholder. */
    function GetDeployKey(env: Option<string>): (r: Option<string>)
      reads this
      ensures Given(env) ==> r == env
      ensures !Given(env) && !Truthy(GetPath(config, ["github", "use_deploy_key"], JBool(false))) ==> r.None?
      ensures !Given(env) && Truthy(GetPath(config, ["github", "use_deploy_key"], JBool(false))) ==>
        r == Some(DeployKeyPlaceholder)
    {
      if Given(env) then env
      else if !Truthy(GetPath(config, ["github", "use_deploy_key"], JBool(false))) then None
      else Some(DeployKeyPlaceholder)
    }

    /** get_github_token: a truthy user token, else a truthy configured
        `github.api_token`, else the deploy key when its flag is set, else
        nothing (JNull). */
    function GetGithubToken(userToken: Option<string>, env: Option<string>): (r: Json)
      reads this
      ensures Given(userToken) ==> r == JStr(userToken.value)
      ensures !Given(userToken) && Truthy(GetPath(config, ["github", "api_token"], JNull)) ==>
        r == GetPath(config, ["github", "api_token"], JNull)
      ensures !Given(userToken) && !Truthy(GetPath(config, ["github", "api_token"], JNull)) ==>
        r == (if !Truthy(GetPath(config, ["github", "use_deploy_key"], JBool(false))) then JNull
              else JStr(if Given(env) then env.value else DeployKeyPlaceholder))
    {
      var configured := GetPath(config, ["github", "api_token"], JNull);
      var useDeployKey := Truthy(GetPath(config, ["github", "use_deploy_key"], JBool(false)));
      var key := GetDeployKey(env);
      if Given(userToken) then JStr(userToken.value)
      else if Truthy(configured) then configured
      else if useDeployKey && key.Some? then JStr(key.value)
      else JNull
    }
  }

  /** obfuscate_key: parts of `len // 4` characters each (the last one
      possibly shorter), each base64-encoded.  A key shorter than four
      characters gives a zero step, which Python rejects (None). */
  method ObfuscateKey(key: string) returns (r: Option<seq<Base64>>)
    ensures r.None? <==> |key| < 4
    ensures r.Some? ==> Decoded(r.value) == key && Sized(r.value, |key| / 4)
  {
    var size := |key| / 4;
    if size == 0 {
      return None;
    }
    var parts: seq<Base64> := [];
    var i := 0;
    while i < |key|
      invariant 0 <= i <= |key|
      invariant Decoded(parts) == key[..i]
      invariant Sized(parts, size)
      invariant i < |key| ==> forall j :: 0 <= j < |parts| ==> |parts[j].decoded| == size
      decreases |key| - i
    {
      var end := if i + size <= |key| then i + size else |key|;
      var part := Base64(key[i..end]);
      assert key[..end] == key[..i] + key[i..end];
      assert (parts + [part])[..|parts|] == parts;
      parts := parts + [part];
      i := end;
    }
    r := Some(parts);
  }
}
