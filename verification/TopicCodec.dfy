/** Device topics and MQTT usernames, and the filters that select them. */
module TopicCodec {
  import opened Wrappers
  import opened Fields

  const SUFFIX_COMMAND := "command"

  predicate Space(c: char) {
    var n := c as int;
    || 9 <= n <= 13 || n == 32 || n == 0x85 || n == 0xa0 || n == 0x1680 || 0x2000 <= n <= 0x200a
    || n == 0x2028 || n == 0x2029 || n == 0x202f || n == 0x205f || n == 0x3000
  }

  /** s == strings.TrimSpace(s). */
  predicate Trimmed(s: string) {
    s == "" || (!Space(s[0]) && !Space(s[|s| - 1]))
  }

  predicate ValidTopicPart(part: string) {
    Trimmed(part) && '/' !in part && '#' !in part && '+' !in part && ValidStorageField(part, FIELD_MAX_BYTES)
  }

  predicate ValidTenantId(id: string) {
    ValidTopicPart(id) && ':' !in id
  }

  // ----- splitting -----------------------------------------------------------

  function Split(s: string): (parts: seq<string>)
    ensures parts != []
  {
    if s == "" then [""]
    else
      var rest := Split(s[1..]);
      if s[0] == '/' then [""] + rest else [[s[0]] + rest[0]] + rest[1..]
  }

  function Join(parts: seq<string>): string
    requires parts != []
  {
    if |parts| == 1 then parts[0] else parts[0] + "/" + Join(parts[1..])
  }

  lemma {:induction false} SplitPart(p: string)
    requires '/' !in p
    ensures Split(p) == [p]
  {
    if p != "" {
      SplitPart(p[1..]);
      assert [p[0]] + p[1..] == p;
    }
  }

  lemma {:induction false} SplitAfterPart(p: string, s: string)
    requires '/' !in p
    ensures Split(p + "/" + s) == [p] + Split(s)
  {
    if p == "" {
      assert p + "/" + s == "/" + s;
      assert ("/" + s)[1..] == s;
    } else {
      assert (p + "/" + s)[1..] == p[1..] + "/" + s;
      SplitAfterPart(p[1..], s);
      assert [p[0]] + p[1..] == p;
    }
  }

  lemma {:induction false} SplitJoin(parts: seq<string>)
    requires parts != [] && forall p <- parts :: '/' !in p
    ensures Split(Join(parts)) == parts
  {
    assert parts[0] in parts && forall p <- parts[1..] :: p in parts;
    if |parts| == 1 {
      SplitPart(parts[0]);
    } else {
      SplitJoin(parts[1..]);
      SplitAfterPart(parts[0], Join(parts[1..]));
    }
  }

  lemma JoinLonger(c: char, parts: seq<string>)
    requires parts != []
    ensures Join([[c] + parts[0]] + parts[1..]) == [c] + Join(parts)
  {
    var longer := [[c] + parts[0]] + parts[1..];
    assert longer[1..] == parts[1..];
    if |parts| > 1 {
      var tail := Join(parts[1..]);
      assert ([c] + parts[0]) + "/" + tail == [c] + (parts[0] + "/" + tail);
    }
  }

  lemma {:induction false} JoinSplit(s: string)
    ensures Join(Split(s)) == s
  {
    if s != "" {
      var rest := Split(s[1..]);
      JoinSplit(s[1..]);
      assert s == [s[0]] + s[1..];
      if s[0] == '/' {
        assert Split(s)[1..] == rest && "" + "/" == [s[0]];
      } else {
        JoinLonger(s[0], rest);
      }
    }
  }

  // ----- topics --------------------------------------------------------------

  datatype Address = Address(tenant: string, device: string, suffix: string)

  predicate ValidAddress(a: Address) {
    ValidTenantId(a.tenant) && ValidTopicPart(a.device) && ValidTopicPart(a.suffix)
  }

  function BuildDeviceTopic(a: Address): Option<string> {
    if ValidAddress(a) then Some("tenant/" + a.tenant + "/device/" + a.device + "/" + a.suffix) else None
  }

  function ParseDeviceTopic(topic: string): Option<Address> {
    var parts := Split(topic);
    if |parts| != 5 || parts[0] != "tenant" || parts[2] != "device" then None
    else
      var a := Address(parts[1], parts[3], parts[4]);
      if ValidAddress(a) then Some(a) else None
  }

  function Levels(a: Address): seq<string> {
    ["tenant", a.tenant, "device", a.device, a.suffix]
  }

  lemma TopicIsJoin(a: Address)
    ensures Join(Levels(a)) == "tenant/" + a.tenant + "/device/" + a.device + "/" + a.suffix
  {
    var d := [a.device, a.suffix];
    assert Join(d) == a.device + "/" + a.suffix;
    var c := ["device"] + d;
    assert c[1..] == d && Join(c) == "device" + "/" + Join(d);
    var b := [a.tenant] + c;
    assert b[1..] == c && Join(b) == a.tenant + "/" + Join(c);
    assert Levels(a) == ["tenant"] + b && Levels(a)[1..] == b;
  }

  /** Parsing undoes building and building undoes parsing: valid addresses and canonical topics
      correspond one to one, and nothing else builds or parses. */
  lemma TopicCodecInverse(a: Address, topic: string)
    ensures BuildDeviceTopic(a) == Some(topic) <==> ParseDeviceTopic(topic) == Some(a)
  {
    TopicIsJoin(a);
    if BuildDeviceTopic(a) == Some(topic) {
      SplitJoin(Levels(a));
    }
    if ParseDeviceTopic(topic) == Some(a) {
      JoinSplit(topic);
      assert Split(topic) == Levels(a);
    }
  }

  // ----- usernames -----------------------------------------------------------

  /** strings.Cut at the first colon. */
  function Cut(s: string): Option<(string, string)> {
    if s == "" then None
    else if s[0] == ':' then Some(("", s[1..]))
    else
      match Cut(s[1..])
      case None => None
      case Some((a, b)) => Some(([s[0]] + a, b))
  }

  function BuildDeviceUsername(tenant: string, device: string): Option<string> {
    if ValidTenantId(tenant) && ValidTopicPart(device) then Some(tenant + ":" + device) else None
  }

  function ParseDeviceUsername(username: string): Option<(string, string)> {
    match Cut(username)
    case None => None
    case Some((tenant, device)) => if ValidTenantId(tenant) && ValidTopicPart(device) then Some((tenant, device))
                                   else None
  }

  lemma {:induction false} CutAt(a: string, b: string)
    requires ':' !in a
    ensures Cut(a + ":" + b) == Some((a, b))
  {
    if a == "" {
      assert a + ":" + b == ":" + b && (":" + b)[1..] == b;
    } else {
      assert (a + ":" + b)[1..] == a[1..] + ":" + b;
      CutAt(a[1..], b);
      assert [a[0]] + a[1..] == a;
    }
  }

  lemma {:induction false} CutJoins(s: string)
    ensures Cut(s).Some? ==> Cut(s).value.0 + ":" + Cut(s).value.1 == s
  {
    if s != "" {
      if s[0] == ':' {
        assert "" + ":" + s[1..] == s;
      } else {
        CutJoins(s[1..]);
        if Cut(s).Some? {
          var (a, b) := Cut(s[1..]).value;
          assert ([s[0]] + a) + ":" + b == [s[0]] + (a + ":" + b) == s;
        }
      }
    }
  }

  /** The same for usernames, with device ids that may hold further colons. */
  lemma UsernameCodecInverse(tenant: string, device: string, username: string)
    ensures BuildDeviceUsername(tenant, device) == Some(username) <==>
              ParseDeviceUsername(username) == Some((tenant, device))
  {
    if BuildDeviceUsername(tenant, device) == Some(username) { CutAt(tenant, device); }
    if ParseDeviceUsername(username) == Some((tenant, device)) { CutJoins(username); }
  }

  // ----- filters -------------------------------------------------------------

  function BuildTenantCommandTopicFilter(tenant: string): Option<string> {
    if ValidTenantId(tenant) then Some("tenant/" + tenant + "/device/+/" + SUFFIX_COMMAND) else None
  }

  /** Level by level, with + standing for any one level (section 4.7.1.3 of MQTT 3.1.1). */
  predicate MatchesLevels(pattern: seq<string>, topic: seq<string>) {
    |pattern| == |topic| && forall i :: 0 <= i < |pattern| ==> pattern[i] == "+" || pattern[i] == topic[i]
  }

  method TopicMatches(pattern: string, topic: string) returns (ok: bool)
    ensures ok <==> MatchesLevels(Split(pattern), Split(topic))
  {
    var p, t := Split(pattern), Split(topic);
    if |p| != |t| {
      return false;
    }
    var i := 0;
    while i < |p|
      invariant i <= |p| && forall j :: 0 <= j < i ==> p[j] == "+" || p[j] == t[j]
    {
      if p[i] != "+" && p[i] != t[i] {
        return false;
      }
      i := i + 1;
    }
    return true;
  }

  lemma FilterLevels(tenant: string)
    requires ValidTenantId(tenant)
    ensures Split(BuildTenantCommandTopicFilter(tenant).value) == ["tenant", tenant, "device", "+", SUFFIX_COMMAND]
  {
    var a := Address(tenant, "+", SUFFIX_COMMAND);
    TopicIsJoin(a);
    SplitJoin(Levels(a));
    assert "tenant/" + tenant + "/device/+/" + SUFFIX_COMMAND ==
        "tenant/" + tenant + "/device/" + "+" + "/" + SUFFIX_COMMAND;
  }

  /** A tenant's command filter selects, among all device topics, exactly that tenant's command topics. */
  lemma FilterSelectsTenant(tenant: string, topic: string)
    requires ValidTenantId(tenant) && ParseDeviceTopic(topic).Some?
    ensures MatchesLevels(Split(BuildTenantCommandTopicFilter(tenant).value), Split(topic)) <==>
            ParseDeviceTopic(topic).value.tenant == tenant && ParseDeviceTopic(topic).value.suffix == SUFFIX_COMMAND
  {
    FilterLevels(tenant);
    var p, t, a := ["tenant", tenant, "device", "+", SUFFIX_COMMAND], Split(topic), ParseDeviceTopic(topic).value;
    assert t == Levels(a);
    assert MatchesLevels(p, t) ==> p[1] == t[1] && p[4] == t[4];
  }
}
