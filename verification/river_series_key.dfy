/**
 * Series keys (river/series_key.go, and its identical copy at the top of
 * river/river.go): the measurement, then `,key=value` for each tag, the tag
 * keys in ascending byte order.
 */
module SeriesKeys {
  import opened Bytes
  import opened Order
  import RiverField

  type Tags = map<ByteString, ByteString>

  /** The bytes the tag loop writes for the keys `ks`, in that order: `,k=v` each. */
  function TagsSuffix(ks: seq<ByteString>, tags: Tags): ByteString
    requires forall i :: 0 <= i < |ks| ==> ks[i] in tags
  {
    if ks == [] then []
    else
      var k := ks[|ks| - 1];
      TagsSuffix(ks[..|ks| - 1], tags) + [','] + k + ['='] + tags[k]
  }

  /** The series key for a measurement and its tags: every tag in ascending key order. */
  ghost function SeriesKeyText(measurement: ByteString, tags: Tags): ByteString
  {
    measurement + TagsSuffix(SortedKeys(tags.Keys), tags)
  }

  /**
   * `SeriesKey`: gathers the tag keys in the map's (unspecified) iteration
   * order, sorts them with `sort.Strings`, then writes the measurement and
   * `,k=v` for each key into a buffer.
   */
  method SeriesKey(measurement: ByteString, tags: Tags) returns (r: ByteString)
    ensures r == SeriesKeyText(measurement, tags)
  {
    var b := new RiverField.Buffer();
    b.Write(measurement);

    var keys := GatherKeys(tags);
    var sorted := new ByteString[|keys|](i requires 0 <= i < |keys| => keys[i]);
    assert sorted[..] == keys;
    SortStrings(sorted);
    keys := sorted[..];
    InAscendingKeyOrder(tags, keys);

    assert b.data == measurement;
    WriteTags(b, keys, tags);
    r := b.data;
    assert r == measurement + TagsSuffix(SortedKeys(tags.Keys), tags);
  }

  /** Sorting the gathered keys yields the one ascending enumeration of the key set. */
  lemma InAscendingKeyOrder(tags: Tags, keys: seq<ByteString>)
    requires Ascending(keys) && multiset(keys) == multiset(tags.Keys)
    ensures keys == SortedKeys(tags.Keys)
    ensures forall j :: 0 <= j < |keys| ==> keys[j] in tags
  {
    SortedKeysUnique(tags.Keys, keys);
  }

  /** The `for _, k := range keys` loop: writes `,k=v` for each key in turn. */
  method WriteTags(b: RiverField.Buffer, keys: seq<ByteString>, tags: Tags)
    requires forall j :: 0 <= j < |keys| ==> keys[j] in tags
    modifies b
    ensures b.data == old(b.data) + TagsSuffix(keys, tags)
  {
    for i := 0 to |keys|
      invariant b.data == old(b.data) + TagsSuffix(keys[..i], tags)
    {
      var k := keys[i];
      b.WriteByte(',');
      b.Write(k);
      b.WriteByte('=');
      b.Write(tags[k]);
      assert keys[..i + 1][..i] == keys[..i];
    }
    assert keys[..|keys|] == keys;
  }

  /** The `for k := range tags` loop: every key once, in an unspecified order. */
  method GatherKeys(tags: Tags) returns (keys: seq<ByteString>)
    ensures multiset(keys) == multiset(tags.Keys)
  {
    keys := [];
    var rest := tags.Keys;
    while rest != {}
      invariant rest <= tags.Keys
      invariant multiset(keys) + multiset(rest) == multiset(tags.Keys)
      decreases |rest|
    {
      var k :| k in rest;
      assert multiset(rest) == multiset(rest - {k}) + multiset{k};
      keys := keys + [k];
      rest := rest - {k};
    }
  }

  /** `k=v`: one tag as it stands between commas. */
  function TagEntry(k: ByteString, v: ByteString): ByteString
  {
    k + ['='] + v
  }

  function TagEntries(ks: seq<ByteString>, tags: Tags): (r: seq<ByteString>)
    requires forall i :: 0 <= i < |ks| ==> ks[i] in tags
    ensures |r| == |ks|
  {
    seq(|ks|, i requires 0 <= i < |ks| => TagEntry(ks[i], tags[ks[i]]))
  }

  /** The measurement followed by the tag suffix is the measurement and the `k=v` entries joined by commas. */
  lemma {:induction false} TagsSuffixIsJoin(measurement: ByteString, ks: seq<ByteString>, tags: Tags)
    requires forall i :: 0 <= i < |ks| ==> ks[i] in tags
    ensures measurement + TagsSuffix(ks, tags) == Join([measurement] + TagEntries(ks, tags), ',')
    decreases |ks|
  {
    if ks != [] {
      var init := ks[..|ks| - 1];
      TagsSuffixIsJoin(measurement, init, tags);
      var parts := [measurement] + TagEntries(ks, tags);
      assert parts[..|parts| - 1] == [measurement] + TagEntries(init, tags);
    }
  }

  /**
   * The layout of a series key: it begins with the measurement, an empty tag
   * map gives the measurement alone, and the keys appear in strictly
   * ascending order, each as `,k=v`, every tag exactly once.
   */
  lemma SeriesKeyLayout(measurement: ByteString, tags: Tags)
    ensures |SeriesKeyText(measurement, tags)| >= |measurement|
    ensures SeriesKeyText(measurement, tags)[..|measurement|] == measurement
    ensures tags == map[] ==> SeriesKeyText(measurement, tags) == measurement
    ensures exists ks :: StrictlyAscending(ks) && (forall k :: k in ks <==> k in tags) && |ks| == |tags|
                         && SeriesKeyText(measurement, tags) == measurement + TagsSuffix(ks, tags)
  {
    var ks := SortedKeys(tags.Keys);
    var suffix := TagsSuffix(ks, tags);
    assert SeriesKeyText(measurement, tags) == measurement + suffix;
    assert (measurement + suffix)[..|measurement|] == measurement;
    if tags == map[] {
      assert |ks| == |tags.Keys| == 0;
    }
    assert forall k :: k in ks <==> k in tags;
  }

  /** A series key is as long as the measurement plus `2 + |k| + |v|` for each tag. */
  lemma SeriesKeyLength(measurement: ByteString, tags: Tags)
    ensures |SeriesKeyText(measurement, tags)| == |measurement| + TagsSize(SortedKeys(tags.Keys), tags)
  {
    TagsSuffixLength(SortedKeys(tags.Keys), tags);
  }

  function TagsSize(ks: seq<ByteString>, tags: Tags): nat
    requires forall i :: 0 <= i < |ks| ==> ks[i] in tags
  {
    if ks == [] then 0
    else
      var k := ks[|ks| - 1];
      TagsSize(ks[..|ks| - 1], tags) + 2 + |k| + |tags[k]|
  }

  lemma {:induction false} TagsSuffixLength(ks: seq<ByteString>, tags: Tags)
    requires forall i :: 0 <= i < |ks| ==> ks[i] in tags
    ensures |TagsSuffix(ks, tags)| == TagsSize(ks, tags)
    decreases |ks|
  {
    if ks != [] {
      TagsSuffixLength(ks[..|ks| - 1], tags);
    }
  }

  /** Reads `k=v` entries back into a tag map. */
  function ParseTags(entries: seq<ByteString>): Option<Tags>
  {
    if entries == [] then Some(map[])
    else
      var e := entries[|entries| - 1];
      match IndexOf(e, '=')
      case None => None
      case Some(i) =>
        match ParseTags(entries[..|entries| - 1])
        case None => None
        case Some(m) => Some(m[e[..i] := e[i + 1..]])
  }

  /** Reads a series key back as its measurement and tags: the inverse of `SeriesKey`. */
  function ParseSeriesKey(s: ByteString): Option<(ByteString, Tags)>
  {
    var parts := Split(s, ',');
    match ParseTags(parts[1..])
    case None => None
    case Some(tags) => Some((parts[0], tags))
  }

  /** Tag names and values free of the separators the line protocol would need escaped. */
  ghost predicate PlainTags(tags: Tags) {
    forall k :: k in tags ==> ',' !in k && '=' !in k && ',' !in tags[k]
  }

  lemma {:induction false} ParseTagEntries(ks: seq<ByteString>, tags: Tags)
    requires forall i :: 0 <= i < |ks| ==> ks[i] in tags
    requires PlainTags(tags)
    ensures ParseTags(TagEntries(ks, tags)) == Some(map k | k in ks :: tags[k])
    decreases |ks|
  {
    if ks != [] {
      var init := ks[..|ks| - 1];
      var k := ks[|ks| - 1];
      var entries := TagEntries(ks, tags);
      assert entries[..|entries| - 1] == TagEntries(init, tags);
      ParseTagEntries(init, tags);
      var e := entries[|entries| - 1];
      assert e == k + ['='] + tags[k];
      EntryDecodes(k, tags[k]);
      var m0: Tags := map x: ByteString | x in init :: tags[x];
      assert ParseTags(entries) == Some(m0[k := tags[k]]);
      assert forall x :: x in ks <==> x in init || x == k;
      assert (map x: ByteString | x in ks :: tags[x]) == m0[k := tags[k]];
    }
  }

  lemma EntryDecodes(k: ByteString, v: ByteString)
    requires '=' !in k
    ensures IndexOf(k + ['='] + v, '=') == Some(|k|)
    ensures (k + ['='] + v)[..|k|] == k && (k + ['='] + v)[|k| + 1..] == v
  {
    IndexAfterPrefix(k, '=', v);
  }

  lemma PlainParts(measurement: ByteString, ks: seq<ByteString>, tags: Tags)
    requires ',' !in measurement
    requires PlainTags(tags)
    requires forall i :: 0 <= i < |ks| ==> ks[i] in tags
    ensures forall i :: 0 <= i < |ks| + 1 ==> ',' !in ([measurement] + TagEntries(ks, tags))[i]
  {
    var parts := [measurement] + TagEntries(ks, tags);
    forall i | 0 <= i < |parts|
      ensures ',' !in parts[i]
    {
      if i > 0 {
        var k := ks[i - 1];
        assert parts[i] == k + ['='] + tags[k];
      }
    }
  }

  /**
   * A series key whose measurement and tags hold no separators reads back as
   * exactly that measurement and that tag map, whatever order the map was
   * built in.
   */
  lemma SeriesKeyRoundTrip(measurement: ByteString, tags: Tags)
    requires ',' !in measurement
    requires PlainTags(tags)
    ensures ParseSeriesKey(SeriesKeyText(measurement, tags)) == Some((measurement, tags))
  {
    var ks := SortedKeys(tags.Keys);
    assert forall k :: k in ks <==> k in tags;
    var parts := [measurement] + TagEntries(ks, tags);
    assert SeriesKeyText(measurement, tags) == Join(parts, ',') by {
      TagsSuffixIsJoin(measurement, ks, tags);
    }
    assert Split(Join(parts, ','), ',') == parts by {
      PlainParts(measurement, ks, tags);
      SplitJoin(parts, ',');
    }
    assert parts[1..] == TagEntries(ks, tags);
    assert ParseTags(parts[1..]) == Some(tags) by {
      ParseTagEntries(ks, tags);
      AllKeysMap(ks, tags);
    }
  }

  lemma AllKeysMap(ks: seq<ByteString>, tags: Tags)
    requires forall k :: k in ks <==> k in tags
    ensures (map k: ByteString | k in ks :: tags[k]) == tags
  {
  }
}
