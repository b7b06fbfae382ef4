/** Admission of user-supplied extra labels (addLabel, main.go:334-350, and the
    environment form read by parseExtraLabelsFromEnv, main.go:352-367). */
module Labels {
  import opened Wrappers

  /** Prefix of every environment variable the program reads. */
  const EnvVarPrefix: string := "SE_"
  /** Prefix of the environment variables that carry an extra label. */
  const LabelEnvPrefix: string := EnvVarPrefix + "LABEL_"

  /** Label names that an extra label may not take, compared with the
      sanitised key before it is lower-cased. */
  const ForbiddenKeys: seq<string> := ["instance", "job", "cpu", "mode", "interface"]

  /** The character class `[a-zA-Z0-9]`. */
  predicate IsAlnum(c: char) {
    'a' <= c <= 'z' || 'A' <= c <= 'Z' || '0' <= c <= '9'
  }

  predicate IsUpper(c: char) {
    'A' <= c <= 'Z'
  }

  /** A stored extra-label key: lower-case letters, digits and `_` only. */
  predicate IsLabelName(s: string) {
    forall j :: 0 <= j < |s| ==> ('a' <= s[j] <= 'z' || '0' <= s[j] <= '9' || s[j] == '_')
  }

  predicate HasPrefix(s: string, p: string) {
    |p| <= |s| && s[..|p|] == p
  }

  /** The replacement of every match of `[^a-zA-Z0-9]` by `_`. */
  function Sanitize(key: string): (r: string)
    ensures |r| == |key|
    ensures forall j :: 0 <= j < |key| ==> r[j] == (if IsAlnum(key[j]) then key[j] else '_')
  {
    if key == [] then []
    else Sanitize(key[..|key| - 1]) + [if IsAlnum(key[|key| - 1]) then key[|key| - 1] else '_']
  }

  function LowerChar(c: char): char {
    if IsUpper(c) then (c as int - 'A' as int + 'a' as int) as char else c
  }

  /** strings.ToLower, on the ASCII text that Sanitize produces. */
  function Lower(s: string): (r: string)
    ensures |r| == |s|
    ensures forall j :: 0 <= j < |s| ==> r[j] == LowerChar(s[j])
  {
    if s == [] then [] else Lower(s[..|s| - 1]) + [LowerChar(s[|s| - 1])]
  }

  /** The key under which addLabel stores a label, or None when it refuses it. */
  function AdmitKey(key: string): (r: Option<string>)
    ensures r.None? <==> Sanitize(key) in ForbiddenKeys
    ensures r.Some? ==> |r.value| == |key| && IsLabelName(r.value)
    ensures r.Some? ==> forall j :: 0 <= j < |key| ==>
      r.value[j] == (if IsAlnum(key[j]) then LowerChar(key[j]) else '_')
  {
    var safeKey := Sanitize(key);
    if safeKey in ForbiddenKeys then None else Some(Lower(safeKey))
  }

  /** Text without an upper-case letter is its own lower-case form. */
  lemma {:induction false} LowerOfLower(s: string)
    requires forall j :: 0 <= j < |s| ==> !IsUpper(s[j])
    ensures Lower(s) == s
  {
    if s != [] {
      LowerOfLower(s[..|s| - 1]);
    }
  }

  /** An admitted key lands on a forbidden name only when the raw key had an
      upper-case letter: the forbidden check is case-sensitive and happens
      before lower-casing. */
  lemma CollisionNeedsUpperCase(key: string)
    requires AdmitKey(key).Some? && AdmitKey(key).value in ForbiddenKeys
    ensures exists j :: 0 <= j < |key| && IsUpper(key[j])
  {
    var safeKey := Sanitize(key);
    if forall j :: 0 <= j < |key| ==> !IsUpper(key[j]) {
      assert forall j :: 0 <= j < |safeKey| ==> !IsUpper(safeKey[j]);
      LowerOfLower(safeKey);
      assert false;
    }
  }

  /** "INSTANCE" passes the check and is stored as "instance", the name of a
      label the program renders itself. */
  lemma UpperCaseInstanceAdmitted()
    ensures AdmitKey("INSTANCE") == Some("instance")
  {
    var key := "INSTANCE";
    SanitizeAlnum(key);
    assert key[0] == 'I';
    assert key !in ForbiddenKeys;
    assert Lower(key) == "instance";
  }

  /** "role", the name of another label the program renders itself, is not
      on the forbidden list. */
  lemma RoleAdmitted()
    ensures AdmitKey("role") == Some("role")
  {
    var key := "role";
    SanitizeAlnum(key);
    LowerOfLower(key);
    assert key !in ForbiddenKeys by {
      assert |key| == 4 && key[0] == 'r';
    }
  }

  /** Text made only of `[a-zA-Z0-9]` is left as it is by Sanitize. */
  lemma SanitizeAlnum(key: string)
    requires forall j :: 0 <= j < |key| ==> IsAlnum(key[j])
    ensures Sanitize(key) == key
  {
  }

  /** Position of the first occurrence of `c` in `s`. */
  function FirstIndex(s: string, c: char): (r: Option<nat>)
    ensures r.None? <==> c !in s
    ensures r.Some? ==> r.value < |s| && s[r.value] == c && c !in s[..r.value]
  {
    if s == [] then None
    else if s[0] == c then Some(0)
    else
      match FirstIndex(s[1..], c)
      case None => None
      case Some(j) =>
        assert s[..j + 1] == [s[0]] + s[1..][..j];
        Some(j + 1)
  }

  /** strings.SplitN(s, sep, 2) when it yields two parts: the text before the
      first separator and everything after it; None when there is no separator. */
  function SplitFirst(s: string, sep: char): (r: Option<(string, string)>)
    ensures r.None? <==> sep !in s
    ensures r.Some? ==> s == r.value.0 + [sep] + r.value.1 && sep !in r.value.0
  {
    match FirstIndex(s, sep)
    case None => None
    case Some(j) =>
      assert s == s[..j] + [sep] + s[j + 1..];
      Some((s[..j], s[j + 1..]))
  }

  /** How parseExtraLabelsFromEnv reads one `NAME=value` entry of the environment. */
  datatype EnvLabel =
    | Unrelated                             // the name does not start with SE_LABEL_
    | Malformed                             // splitting at `=` does not give exactly two parts
    | Entry(key: string, value: string)

  function ParseEnvLabel(entry: string): (r: EnvLabel)
    ensures r.Unrelated? <==> !HasPrefix(entry, LabelEnvPrefix)
    ensures r.Entry? ==> entry == LabelEnvPrefix + r.key + "=" + r.value
    ensures r.Entry? ==> '=' !in r.key && '=' !in r.value
  {
    if !HasPrefix(entry, LabelEnvPrefix) then Unrelated
    else
      match SplitFirst(entry, '=')
      case None => Malformed
      case Some((name, value)) =>
        if '=' in value then Malformed
        else
          SeparatorAfterPrefix(entry, |name|);
          assert name == LabelEnvPrefix + name[|LabelEnvPrefix|..];
          Entry(name[|LabelEnvPrefix|..], value)
  }

  /** An `=` in an entry that starts with SE_LABEL_ lies after that prefix. */
  lemma SeparatorAfterPrefix(entry: string, j: nat)
    requires HasPrefix(entry, LabelEnvPrefix)
    requires j < |entry| && entry[j] == '='
    ensures |LabelEnvPrefix| <= j
  {
  }

  /** Every `SE_LABEL_<key>=<value>` entry with a single `=` is read back as
      that key and value. */
  lemma EnvLabelRoundTrip(key: string, value: string)
    requires '=' !in key && '=' !in value
    ensures ParseEnvLabel(LabelEnvPrefix + key + "=" + value) == Entry(key, value)
  {
    var entry := LabelEnvPrefix + key + "=" + value;
    assert '=' !in LabelEnvPrefix;
    assert entry[..|LabelEnvPrefix|] == LabelEnvPrefix;
    var name := LabelEnvPrefix + key;
    assert entry == name + "=" + value;
    assert '=' !in name;
    FirstIndexAfter(name, value, '=');
  }

  /** The first `c` in `a + [c] + b` is the one right after `a` when `a` has none. */
  lemma FirstIndexAfter(a: string, b: string, c: char)
    requires c !in a
    ensures FirstIndex(a + [c] + b, c) == Some(|a|)
  {
    var s := a + [c] + b;
    var r := FirstIndex(s, c);
    assert s[|a|] == c;
  }

  /** SplitFirst undoes the joining of a key without the separator and any value. */
  lemma SplitFirstOfJoin(key: string, value: string, sep: char)
    requires sep !in key
    ensures SplitFirst(key + [sep] + value, sep) == Some((key, value))
  {
    FirstIndexAfter(key, value, sep);
    var s := key + [sep] + value;
    assert s[..|key|] == key;
    assert s[|key| + 1..] == value;
  }

  /** An SE_LABEL_ entry with two or more `=` is refused. */
  lemma EnvLabelWithTwoSeparators(entry: string)
    requires HasPrefix(entry, LabelEnvPrefix)
    requires multiset(entry)['='] >= 2
    ensures ParseEnvLabel(entry).Malformed?
  {
  }
}
