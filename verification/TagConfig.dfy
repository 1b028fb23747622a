/** Tags recorded as `{prefix}.{index}.{group}` configuration keys, without losing any. */
module TagConfig {
  /** A parsed tag: the group it names, possibly empty, and its value. */
  datatype Tag = Tag(named: string, value: string) {
    /** A tag without a group uses its value as group. */
    function Group(): string {
      if named == [] then value else named
    }
  }

  const DOT: char := '.'

  function Digit(d: nat): (c: char)
    requires d < 10
    ensures '0' <= c <= '9' && c as int - '0' as int == d
  {
    '0' + d as char
  }

  function Decimal(n: nat): (s: string)
    ensures |s| > 0 && forall i | 0 <= i < |s| :: '0' <= s[i] <= '9'
  {
    if n < 10 then [Digit(n)] else Decimal(n / 10) + [Digit(n % 10)]
  }

  function Key(prefix: string, index: nat, group: string): string {
    prefix + [DOT] + Decimal(index) + [DOT] + group
  }

  /** The values of the tags of a group, in order. */
  function InGroup(tags: seq<Tag>, group: string): seq<string> {
    if tags == [] then []
    else
      var rest := InGroup(tags[..|tags| - 1], group);
      if tags[|tags| - 1].Group() == group then rest + [tags[|tags| - 1].value] else rest
  }

  /** The key of the tag at position i: its index is the number of tags of its group before it. */
  function KeyOf(prefix: string, tags: seq<Tag>, i: nat): string
    requires i < |tags|
  {
    Key(prefix, |InGroup(tags[..i], tags[i].Group())|, tags[i].Group())
  }

  /** What the tags are recorded as: each tag in turn under its key. */
  function Recorded(prefix: string, tags: seq<Tag>): map<string, string> {
    if tags == [] then map[]
    else
      var last := |tags| - 1;
      Recorded(prefix, tags[..last])[KeyOf(prefix, tags, last) := tags[last].value]
  }

  method Config(prefix: string, tags: seq<Tag>) returns (config: map<string, string>)
    ensures config == Recorded(prefix, tags)
  {
    config := map[];
    var indexByGroup: map<string, nat> := map[];
    for i := 0 to |tags|
      invariant forall g | g in indexByGroup :: indexByGroup[g] == |InGroup(tags[..i], g)|
      invariant forall g | g !in indexByGroup :: InGroup(tags[..i], g) == []
      invariant config == Recorded(prefix, tags[..i])
    {
      var group := tags[i].Group();
      var index := if group in indexByGroup then indexByGroup[group] else 0;
      assert tags[..i + 1][..i] == tags[..i];
      config := config[Key(prefix, index, group) := tags[i].value];
      indexByGroup := indexByGroup[group := index + 1];
    }
    assert tags[..|tags|] == tags;
  }

  // ---- Reading a key back ----------------------------------------------------------------------------

  function Number(s: string): nat
    requires forall i | 0 <= i < |s| :: '0' <= s[i] <= '9'
  {
    if s == [] then 0 else 10 * Number(s[..|s| - 1]) + (s[|s| - 1] as int - '0' as int)
  }

  /** Decimal rendering can be undone, so different indices have different texts. */
  lemma {:induction false} DecimalRoundTrip(n: nat)
    ensures Number(Decimal(n)) == n
  {
    if n >= 10 {
      DecimalRoundTrip(n / 10);
      assert Decimal(n)[..|Decimal(n)| - 1] == Decimal(n / 10);
    }
  }

  /** The index and the group that a key stands for: the text up to the first dot and the text after it. */
  function Parse(rest: string): (string, string) {
    if rest == [] then ([], [])
    else if rest[0] == DOT then ([], rest[1..])
    else
      var (index, group) := Parse(rest[1..]);
      ([rest[0]] + index, group)
  }

  lemma {:induction false} ParseUndoes(index: string, group: string)
    requires DOT !in index
    ensures Parse(index + [DOT] + group) == (index, group)
  {
    var rest := index + [DOT] + group;
    if index == [] {
      assert rest[1..] == group;
    } else {
      assert rest[1..] == index[1..] + [DOT] + group;
      ParseUndoes(index[1..], group);
      assert [index[0]] + index[1..] == index;
    }
  }

  /** A key tells its index and its group, whatever dots and digits the group has. */
  lemma KeyRoundTrip(prefix: string, index: nat, group: string)
    ensures var key := Key(prefix, index, group);
            && |key| > |prefix|
            && Parse(key[|prefix| + 1..]) == (Decimal(index), group)
            && Number(Decimal(index)) == index
  {
    assert Key(prefix, index, group)[|prefix| + 1..] == Decimal(index) + [DOT] + group;
    ParseUndoes(Decimal(index), group);
    DecimalRoundTrip(index);
  }

  lemma KeyIsInjective(prefix: string, i: nat, g: string, j: nat, h: string)
    requires Key(prefix, i, g) == Key(prefix, j, h)
    ensures i == j && g == h
  {
    KeyRoundTrip(prefix, i, g);
    KeyRoundTrip(prefix, j, h);
  }

  // ---- No tag is lost ----------------------------------------------------------------------------------

  lemma {:induction false} GroupGrows(tags: seq<Tag>, i: nat, j: nat, group: string)
    requires i <= j <= |tags|
    ensures InGroup(tags[..i], group) <= InGroup(tags[..j], group)
    ensures i < j && tags[i].Group() == group ==> |InGroup(tags[..i], group)| < |InGroup(tags[..j], group)|
    decreases j
  {
    if i < j {
      GroupGrows(tags, i, j - 1, group);
      assert tags[..j][..j - 1] == tags[..j - 1];
    }
  }

  /** Different tags have different keys. */
  lemma KeysAreDistinct(prefix: string, tags: seq<Tag>, i: nat, j: nat)
    requires i < j < |tags|
    ensures KeyOf(prefix, tags, i) != KeyOf(prefix, tags, j)
  {
    if KeyOf(prefix, tags, i) == KeyOf(prefix, tags, j) {
      KeyIsInjective(prefix, |InGroup(tags[..i], tags[i].Group())|, tags[i].Group(),
                     |InGroup(tags[..j], tags[j].Group())|, tags[j].Group());
      GroupGrows(tags, i, j, tags[i].Group());
    }
  }

  lemma KeyOfPrefix(prefix: string, tags: seq<Tag>, n: nat, i: nat)
    requires i < n <= |tags|
    ensures KeyOf(prefix, tags[..n], i) == KeyOf(prefix, tags, i)
  {
    assert tags[..n][..i] == tags[..i];
  }

  /** Every tag is recorded under its key with its value: no later tag overwrites it. */
  lemma {:induction false} EveryTagIsKept(prefix: string, tags: seq<Tag>, i: nat)
    requires i < |tags|
    ensures KeyOf(prefix, tags, i) in Recorded(prefix, tags)
    ensures Recorded(prefix, tags)[KeyOf(prefix, tags, i)] == tags[i].value
  {
    var last := |tags| - 1;
    if i < last {
      KeyOfPrefix(prefix, tags, last, i);
      KeysAreDistinct(prefix, tags, i, last);
      EveryTagIsKept(prefix, tags[..last], i);
    }
  }

  /** Every key belongs to a tag. */
  lemma {:induction false} TagOf(prefix: string, tags: seq<Tag>, key: string) returns (i: nat)
    requires key in Recorded(prefix, tags)
    ensures i < |tags| && key == KeyOf(prefix, tags, i)
  {
    i := |tags| - 1;
    if key != KeyOf(prefix, tags, i) {
      var n := i;
      i := TagOf(prefix, tags[..n], key);
      KeyOfPrefix(prefix, tags, n, i);
    }
  }

  /** There are as many keys as tags. */
  lemma {:induction false} OneKeyEach(prefix: string, tags: seq<Tag>)
    ensures |Recorded(prefix, tags)| == |tags|
  {
    if tags != [] {
      var last := |tags| - 1;
      OneKeyEach(prefix, tags[..last]);
      if KeyOf(prefix, tags, last) in Recorded(prefix, tags[..last]) {
        var i := TagOf(prefix, tags[..last], KeyOf(prefix, tags, last));
        KeyOfPrefix(prefix, tags, last, i);
        KeysAreDistinct(prefix, tags, i, last);
      }
    }
  }

  /** The position of the tag that is number k of its group. */
  lemma {:induction false} PositionOf(tags: seq<Tag>, group: string, k: nat) returns (i: nat)
    requires k < |InGroup(tags, group)|
    ensures i < |tags| && tags[i].Group() == group && tags[i].value == InGroup(tags, group)[k]
    ensures |InGroup(tags[..i], group)| == k
  {
    var last := |tags| - 1;
    if k < |InGroup(tags[..last], group)| {
      i := PositionOf(tags[..last], group, k);
      assert tags[..last][..i] == tags[..i];
    } else {
      i := last;
    }
  }

  /** The tags of every group can be read back from the configuration, in order and in full: number k of the
      group is under index k, and the indices end where the group does. */
  lemma GroupsAreRecovered(prefix: string, tags: seq<Tag>, group: string, k: nat)
    ensures Key(prefix, k, group) in Recorded(prefix, tags) <==> k < |InGroup(tags, group)|
    ensures k < |InGroup(tags, group)| ==> Recorded(prefix, tags)[Key(prefix, k, group)] == InGroup(tags, group)[k]
  {
    assert tags[..|tags|] == tags;
    if k < |InGroup(tags, group)| {
      var i := PositionOf(tags, group, k);
      EveryTagIsKept(prefix, tags, i);
    } else if Key(prefix, k, group) in Recorded(prefix, tags) {
      var i := TagOf(prefix, tags, Key(prefix, k, group));
      KeyIsInjective(prefix, k, group, |InGroup(tags[..i], tags[i].Group())|, tags[i].Group());
      GroupGrows(tags, i, |tags|, group);
    }
  }

  // ---- The two sets of tags of an instance -------------------------------------------------------------

  const SDN_TAGS_KEY_PREFIX := "user.sdn.tags"
  const TAGS_KEY_PREFIX := "user.tags"

  /** The two prefixes never produce the same key, so recording both sets loses nothing either. */
  lemma PrefixesNeverClash(i: nat, g: string, j: nat, h: string)
    ensures Key(SDN_TAGS_KEY_PREFIX, i, g) != Key(TAGS_KEY_PREFIX, j, h)
  {
    assert Key(SDN_TAGS_KEY_PREFIX, i, g)[5] == 's';
    assert Key(TAGS_KEY_PREFIX, j, h)[5] == 't';
  }

  /** Three tags: each is under the prefix, its number in its group, and the group. */
  lemma ThreeTags()
    ensures Recorded("p", [Tag("e", "x"), Tag("", "w"), Tag("e", "y")]) == map["p.0.e" := "x", "p.0.w" := "w", "p.1.e" := "y"]
  {
    var a, b, c := Tag("e", "x"), Tag("", "w"), Tag("e", "y");
    assert [a, b, c][..2] == [a, b] && [a, b][..1] == [a] && [a][..0] == [];
    assert Decimal(0) == ['0'] && Decimal(1) == ['1'];
    assert Key("p", 0, "e") == "p.0.e" && Key("p", 0, "w") == "p.0.w" && Key("p", 1, "e") == "p.1.e";
    assert KeyOf("p", [a], 0) == Key("p", 0, "e");
    assert "e"[0] != "w"[0];
    assert a.Group() == "e" && b.Group() == "w" && c.Group() == "e";
    assert InGroup([a], "w") == [] && InGroup([a], "e") == ["x"];
    assert KeyOf("p", [a, b], 1) == Key("p", 0, "w");
    assert InGroup([a, b], "e") == ["x"];
    assert KeyOf("p", [a, b, c], 2) == Key("p", 1, "e");
    hide Key, KeyOf;
    assert Recorded("p", [a]) == map["p.0.e" := "x"];
    assert Recorded("p", [a, b]) == map["p.0.e" := "x", "p.0.w" := "w"];
  }
}
