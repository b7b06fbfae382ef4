/** generateLabelRender: the text between the braces of every metric line,
    `key="value"` pairs joined by commas, with instance, job and role always
    first. Go visits a map in an unspecified order, so the loops over the two
    label maps pick their next key with `:|` and the contract speaks of every
    order at once. */
module Render {
  import opened Labels
  import opened Cli

  /** One `%s="%s"` pair; neither part is escaped. */
  function Pair(key: string, value: string): (p: string)
    ensures |p| == |key| + |value| + 3
    ensures p[..|key| + 2] == key + "=\""
    ensures p[|p| - 1] == '"'
  {
    key + "=\"" + value + "\""
  }

  /** The characters of all the parts together. */
  function TotalLength(parts: seq<string>): nat {
    if parts == [] then 0 else TotalLength(parts[..|parts| - 1]) + |parts[|parts| - 1]|
  }

  /** strings.Join with a one-character separator: every part, and one
      separator between each two. */
  function Join(parts: seq<string>, sep: char): (r: string)
    ensures parts == [] ==> r == ""
    ensures |parts| == 1 ==> r == parts[0]
    ensures parts != [] ==> |r| == TotalLength(parts) + |parts| - 1
  {
    if parts == [] then ""
    else if |parts| == 1 then parts[0]
    else Join(parts[..|parts| - 1], sep) + [sep] + parts[|parts| - 1]
  }

  /** The three pairs every label set starts with. */
  function Reserved(instance: string, role: Role): (r: seq<string>)
    ensures |r| == 3
  {
    [Pair("instance", instance), Pair("job", JobName), Pair("role", RoleName(role))]
  }

  /** The pairs of a map's entries, in the order `keys` lists them. */
  function Pairs(keys: seq<string>, m: map<string, string>): (r: seq<string>)
    requires forall k :: k in keys ==> k in m
    ensures |r| == |keys|
    ensures forall j :: 0 <= j < |keys| ==> r[j] == Pair(keys[j], m[keys[j]])
  {
    if keys == [] then []
    else Pairs(keys[..|keys| - 1], m) + [Pair(keys[|keys| - 1], m[keys[|keys| - 1]])]
  }

  /** `keys` lists every key of `m` exactly once: one order a Go `range`
      over the map can take. */
  ghost predicate Enumerates(keys: seq<string>, m: map<string, string>) {
    && |keys| == |m|
    && (forall k :: k in keys <==> k in m)
    && (forall i, j :: 0 <= i < j < |keys| ==> keys[i] != keys[j])
  }

  lemma PairsSnoc(keys: seq<string>, key: string, m: map<string, string>)
    requires forall k :: k in keys ==> k in m
    requires key in m
    ensures Pairs(keys + [key], m) == Pairs(keys, m) + [Pair(key, m[key])]
  {
    assert (keys + [key])[..|keys|] == keys;
  }

  /** The append loop of one `for key, value := range m`. */
  method AppendPairs(parts: seq<string>, m: map<string, string>)
    returns (r: seq<string>, ghost keys: seq<string>)
    ensures Enumerates(keys, m)
    ensures r == parts + Pairs(keys, m)
  {
    var pairs := [];
    keys := [];
    var rest := m.Keys;
    while rest != {}
      invariant rest <= m.Keys
      invariant forall k :: k in keys <==> k in m && k !in rest
      invariant |keys| + |rest| == |m|
      invariant forall i, j :: 0 <= i < j < |keys| ==> keys[i] != keys[j]
      invariant pairs == Pairs(keys, m)
      decreases |rest|
    {
      var key :| key in rest;
      PairsSnoc(keys, key, m);
      pairs := pairs + [Pair(key, m[key])];
      keys := keys + [key];
      rest := rest - {key};
    }
    r := parts + pairs;
  }

  /** generateLabelRender over the given instance and role (package globals
      in the program): for some order of each map, the reserved pairs, then
      the metric's own labels, then the extra labels, joined by commas. */
  method GenerateLabelRender(instance: string, role: Role,
                             metricLabels: map<string, string>, extraLabels: map<string, string>)
    returns (render: string)
    ensures exists metricKeys, extraKeys ::
      Enumerates(metricKeys, metricLabels) && Enumerates(extraKeys, extraLabels) &&
      render == Join(Reserved(instance, role) + Pairs(metricKeys, metricLabels) + Pairs(extraKeys, extraLabels), ',')
  {
    var labelRender := Reserved(instance, role);
    ghost var metricKeys, extraKeys;
    labelRender, metricKeys := AppendPairs(labelRender, metricLabels);
    labelRender, extraKeys := AppendPairs(labelRender, extraLabels);
    render := Join(labelRender, ',');
    assert Enumerates(metricKeys, metricLabels) && Enumerates(extraKeys, extraLabels) &&
      render == Join(Reserved(instance, role) + Pairs(metricKeys, metricLabels) + Pairs(extraKeys, extraLabels), ',');
  }

  lemma {:induction false} JoinAppend(a: seq<string>, b: seq<string>, sep: char)
    requires a != []
    ensures Join(a + b, sep) == Join(a, sep) + (if b == [] then "" else [sep] + Join(b, sep))
    decreases |b|
  {
    if b == [] {
      assert a + b == a;
    } else if |b| == 1 {
      assert (a + b)[..|a + b| - 1] == a;
    } else {
      assert (a + b)[..|a + b| - 1] == a + b[..|b| - 1];
      JoinAppend(a, b[..|b| - 1], sep);
    }
  }

  /** Whatever the labels, the render starts with
      `instance="…",job="statexec",role="…"`; the pairs of both maps follow
      it only after a comma, and without any it is exactly that. */
  lemma RenderPrefix(instance: string, role: Role, rest: seq<string>)
    ensures var head := Pair("instance", instance) + "," + Pair("job", JobName) + "," + Pair("role", RoleName(role));
      var r := Join(Reserved(instance, role) + rest, ',');
      |head| <= |r| && r[..|head|] == head &&
      (rest == [] ==> r == head) &&
      (rest != [] ==> |head| < |r| && r[|head|] == ',')
  {
    var reserved := Reserved(instance, role);
    assert Join(reserved[..1], ',') == reserved[0];
    assert reserved[..2][..1] == reserved[..1];
    assert Join(reserved[..2], ',') == reserved[0] + "," + reserved[1];
    JoinAppend(reserved, rest, ',');
  }

  /** A key of the map has its pair among the map's pairs, after whatever
      comes before them. */
  lemma PairsListKey(prefix: seq<string>, keys: seq<string>, m: map<string, string>, key: string)
    requires forall k :: k in keys ==> k in m
    requires key in keys
    ensures exists j :: |prefix| <= j < |prefix| + |keys| && (prefix + Pairs(keys, m))[j] == Pair(key, m[key])
  {
    var i :| 0 <= i < |keys| && keys[i] == key;
    assert (prefix + Pairs(keys, m))[|prefix| + i] == Pairs(keys, m)[i];
  }

  /** "role" is not a forbidden extra label, so an extra label of that name
      is rendered after the reserved role pair instead of replacing it. */
  lemma ExtraRoleRenderedTwice(instance: string, role: Role, metricLabels: map<string, string>,
                               extraLabels: map<string, string>, metricKeys: seq<string>, extraKeys: seq<string>)
    requires Enumerates(metricKeys, metricLabels) && Enumerates(extraKeys, extraLabels)
    requires "role" in extraLabels
    ensures var parts := Reserved(instance, role) + Pairs(metricKeys, metricLabels) + Pairs(extraKeys, extraLabels);
      parts[2] == Pair("role", RoleName(role)) &&
      exists j :: 3 + |metricLabels| <= j < |parts| && parts[j] == Pair("role", extraLabels["role"])
  {
    var prefix := Reserved(instance, role) + Pairs(metricKeys, metricLabels);
    assert prefix[2] == Pair("role", RoleName(role));
    PairsListKey(prefix, extraKeys, extraLabels, "role");
  }
}
