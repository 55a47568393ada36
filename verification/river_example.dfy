/**
 * The line-assembly example of river/river_test.go worked through the model:
 * measurement `rooms`, tags `room=r1` and `building=b1`, a boolean, an
 * integer, a float and a string field, and a 19-digit timestamp.
 */
module RiverExample {
  import opened Bytes
  import Decimal
  import Order
  import opened RiverField
  import SeriesKeys
  import River

  const Tags: SeriesKeys.Tags := map["room" := "r1", "building" := "b1"]
  const Keys: seq<ByteString> := ["building", "room"]
  /** `rooms,building=b1,room=r1`, spelled tag by tag. */
  const TagSuffix1: ByteString := "," + "building" + "=" + "b1"
  const Key: ByteString := "rooms" + TagSuffix1 + "," + "room" + "=" + "r1"
  const Fields: seq<Field> := [
    Bool("lights", true),
    Int("occupants", 3),
    Float("temp_f", Float64("72.5")),
    String("meeting_name", "bikeshed")
  ]
  /** `lights=T,occupants=3i,temp_f=72.5,meeting_name=bikeshed`, spelled field by field. */
  const Section1Text: ByteString := "lights=T"
  const Section2Text: ByteString := Section1Text + "," + "occupants=3i"
  const Section3Text: ByteString := Section2Text + "," + "temp_f=72.5"
  const FieldSection: ByteString := Section3Text + "," + "meeting_name=bikeshed"
  const Time: Int64 := 1435362189575692182
  const Expected: ByteString := Key + " " + FieldSection + " " + "1435362189575692182" + "\n"

  lemma KeySet()
    ensures multiset(Keys) == multiset(Tags.Keys)
  {
    assert Tags.Keys == {Keys[0], Keys[1]};
  }

  /** `building` sorts before `room`. */
  lemma KeyOrder()
    ensures Order.SortedKeys(Tags.Keys) == Keys
  {
    assert Order.Less(Keys[0], Keys[1]);
    KeySet();
    Order.SortedKeysUnique(Tags.Keys, Keys);
  }

  lemma TagsSuffix()
    ensures SeriesKeys.TagsSuffix(Keys, Tags) == TagSuffix1 + "," + "room" + "=" + "r1"
  {
    assert SeriesKeys.TagsSuffix(Keys[..1], Tags) == TagSuffix1 by {
      assert Keys[..1][..0] == [];
    }
  }

  /** The series key of the example: the tags in ascending key order. */
  lemma SeriesKey()
    ensures SeriesKeys.SeriesKeyText("rooms", Tags) == Key
  {
    KeyOrder();
    TagsSuffix();
  }

  lemma Render0()
    ensures Render(Fields[0]) == "lights=T"
  {
  }

  lemma Render1()
    ensures Render(Fields[1]) == "occupants=3i"
  {
    assert Decimal.Text(3) == "3";
  }

  lemma Render2()
    ensures Render(Fields[2]) == "temp_f=72.5"
  {
  }

  lemma Render3()
    ensures Render(Fields[3]) == "meeting_name=bikeshed"
  {
  }

  lemma Section1()
    ensures River.FieldsText(Fields[..1]) == Section1Text
  {
    River.FieldsTextSnoc(Fields, 0);
    assert Fields[..0] == [];
    Render0();
  }

  lemma Section2()
    ensures River.FieldsText(Fields[..2]) == Section2Text
  {
    River.FieldsTextSnoc(Fields, 1);
    Section1();
    Render1();
  }

  lemma Section3()
    ensures River.FieldsText(Fields[..3]) == Section3Text
  {
    River.FieldsTextSnoc(Fields, 2);
    Section2();
    Render2();
  }

  /** The field section of the example: the fields in the caller's order. */
  lemma Section()
    ensures River.FieldsText(Fields) == FieldSection
  {
    River.FieldsTextSnoc(Fields, 3);
    Section3();
    Render3();
    assert Fields[..4] == Fields;
  }

  lemma Digits7()
    ensures Decimal.Digits(1435362) == "1435362"
  {
    Decimal.DigitsSnoc(1, 4);
    assert Decimal.Digits(14) == "14";
    Decimal.DigitsSnoc(14, 3);
    assert Decimal.Digits(143) == "143";
    Decimal.DigitsSnoc(143, 5);
    assert Decimal.Digits(1435) == "1435";
    Decimal.DigitsSnoc(1435, 3);
    assert Decimal.Digits(14353) == "14353";
    Decimal.DigitsSnoc(14353, 6);
    assert Decimal.Digits(143536) == "143536";
    Decimal.DigitsSnoc(143536, 2);
    assert Decimal.Digits(1435362) == "1435362";
  }

  lemma Digits13()
    ensures Decimal.Digits(1435362189575) == "1435362189575"
  {
    Digits7();
    Decimal.DigitsSnoc(1435362, 1);
    assert Decimal.Digits(14353621) == "14353621";
    Decimal.DigitsSnoc(14353621, 8);
    assert Decimal.Digits(143536218) == "143536218";
    Decimal.DigitsSnoc(143536218, 9);
    assert Decimal.Digits(1435362189) == "1435362189";
    Decimal.DigitsSnoc(1435362189, 5);
    assert Decimal.Digits(14353621895) == "14353621895";
    Decimal.DigitsSnoc(14353621895, 7);
    assert Decimal.Digits(143536218957) == "143536218957";
    Decimal.DigitsSnoc(143536218957, 5);
    assert Decimal.Digits(1435362189575) == "1435362189575";
  }

  /** The timestamp of the example renders as its 19 digits. */
  lemma TimestampText()
    ensures Decimal.Text(Time) == "1435362189575692182"
  {
    Digits13();
    Decimal.DigitsSnoc(1435362189575, 6);
    assert Decimal.Digits(14353621895756) == "14353621895756";
    Decimal.DigitsSnoc(14353621895756, 9);
    assert Decimal.Digits(143536218957569) == "143536218957569";
    Decimal.DigitsSnoc(143536218957569, 2);
    assert Decimal.Digits(1435362189575692) == "1435362189575692";
    Decimal.DigitsSnoc(1435362189575692, 1);
    assert Decimal.Digits(14353621895756921) == "14353621895756921";
    Decimal.DigitsSnoc(14353621895756921, 8);
    assert Decimal.Digits(143536218957569218) == "143536218957569218";
    Decimal.DigitsSnoc(143536218957569218, 2);
    assert Decimal.Digits(1435362189575692182) == "1435362189575692182";
  }

  /** Writing the example to an in-memory writer produces the expected line and no error. */
  method WriteLine() returns (line: ByteString, err: Option<ByteString>)
    ensures err == None
    ensures line == Expected
  {
    var w := new River.Writer.InMemory([]);
    var sk := SeriesKeys.SeriesKey("rooms", Tags);
    SeriesKey();
    err := River.WriteLine(w, sk, Fields, Time);
    line := w.written;
    TimestampText();
    Section();
  }
}
