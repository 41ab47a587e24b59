/**
 * What one metric submission carries besides its points: the metric names
 * built from the configured prefix (lambda_function.py:117, 125) and the
 * tag list shared by both submissions of a product
 * (lambda_function.py:86-88).
 */
module Publish {
  import opened Wrappers

  /** A `key:value` tag as the monitoring backend receives it. */
  function Tag(key: string, value: string): string
  {
    key + ":" + value
  }

  const SourceTag: string := "source:megaport_datadog.py"
  const ProductNameKey: string := "product_name"
  const ProductUidKey: string := "product_uid"

  /** The position of the first `:` in `s`, if there is one. */
  function ColonIndex(s: string): (r: Option<nat>)
    ensures r.Some? ==> r.value < |s| && s[r.value] == ':' && ':' !in s[..r.value]
    ensures r.None? ==> ':' !in s
  {
    if s == [] then None
    else if s[0] == ':' then Some(0)
    else
      assert s == [s[0]] + s[1..];
      match ColonIndex(s[1..])
      case None => None
      case Some(i) =>
        assert s[..i + 1] == [s[0]] + s[1..][..i];
        Some(i + 1)
  }

  /** Splits a tag at its first `:` into key and value; a tag without `:` has no key. */
  function ParseTag(tag: string): (r: Option<(string, string)>)
    ensures r.Some? ==> ':' !in r.value.0 && Tag(r.value.0, r.value.1) == tag
    ensures r.None? ==> ':' !in tag
  {
    match ColonIndex(tag)
    case None => None
    case Some(i) =>
      assert tag == tag[..i] + [':'] + tag[i + 1..];
      Some((tag[..i], tag[i + 1..]))
  }

  lemma {:induction false} ColonAfterKey(key: string, rest: string)
    requires ':' !in key && rest != [] && rest[0] == ':'
    ensures ColonIndex(key + rest) == Some(|key|)
  {
    if key == [] {
      assert key + rest == rest;
    } else {
      assert (key + rest)[0] == key[0];
      assert (key + rest)[1..] == key[1..] + rest;
      ColonAfterKey(key[1..], rest);
    }
  }

  /** A tag whose key has no `:` parses back to its key and value, whatever the value holds. */
  lemma ParseTagRoundTrip(key: string, value: string)
    requires ':' !in key
    ensures ParseTag(Tag(key, value)) == Some((key, value))
  {
    var tag := Tag(key, value);
    ColonAfterKey(key, ":" + value);
    assert tag == key + (":" + value);
    assert tag[..|key|] == key;
    assert tag[|key| + 1..] == value;
  }

  /** The tags of both submissions of one product, in this order. */
  function Tags(productName: string, productUid: string): seq<string>
  {
    [SourceTag, Tag(ProductNameKey, productName), Tag(ProductUidKey, productUid)]
  }

  /**
   * The three tags identify the tool, then the product's name, then its
   * uid; name and uid are recovered exactly from the tags, so two products
   * with different names or uids never share a tag list.
   */
  lemma TagsIdentifyProduct(productName: string, productUid: string)
    ensures |Tags(productName, productUid)| == 3
    ensures ParseTag(Tags(productName, productUid)[0]) == Some(("source", "megaport_datadog.py"))
    ensures ParseTag(Tags(productName, productUid)[1]) == Some((ProductNameKey, productName))
    ensures ParseTag(Tags(productName, productUid)[2]) == Some((ProductUidKey, productUid))
  {
    var source, tool := "source", "megaport_datadog.py";
    assert ':' !in source by {
      forall c | c in source ensures c != ':' { }
    }
    assert ':' !in ProductNameKey by {
      forall c | c in ProductNameKey ensures c != ':' { }
    }
    assert ':' !in ProductUidKey by {
      forall c | c in ProductUidKey ensures c != ':' { }
    }
    assert SourceTag == Tag(source, tool);
    ParseTagRoundTrip(source, tool);
    ParseTagRoundTrip(ProductNameKey, productName);
    ParseTagRoundTrip(ProductUidKey, productUid);
  }

  function InMetric(prefix: string): string
  {
    prefix + ".bandwidth.mbps_in"
  }

  function OutMetric(prefix: string): string
  {
    prefix + ".bandwidth.mbps_out"
  }

  /**
   * The inbound and outbound metric names of one prefix differ, and each
   * name determines the prefix it was built from.
   */
  lemma MetricNamesDistinct(prefix: string, prefix': string)
    ensures InMetric(prefix) != OutMetric(prefix')
    ensures InMetric(prefix) == InMetric(prefix') ==> prefix == prefix'
    ensures OutMetric(prefix) == OutMetric(prefix') ==> prefix == prefix'
  {
    var i, o := InMetric(prefix), OutMetric(prefix');
    if |i| == |o| {
      assert i[|i| - 1] == 'n' && o[|o| - 1] == 't';
    }
    if InMetric(prefix) == InMetric(prefix') {
      assert prefix == InMetric(prefix)[..|prefix|];
      assert prefix' == InMetric(prefix')[..|prefix'|];
    }
    if OutMetric(prefix) == OutMetric(prefix') {
      assert prefix == OutMetric(prefix)[..|prefix|];
      assert prefix' == OutMetric(prefix')[..|prefix'|];
    }
  }

  /** Product "p1" named "A" under the default prefix "megaport". */
  lemma PublishExample()
    ensures Tags("A", "p1") == ["source:megaport_datadog.py", "product_name:A", "product_uid:p1"]
    ensures InMetric("megaport") == "megaport.bandwidth.mbps_in"
    ensures OutMetric("megaport") == "megaport.bandwidth.mbps_out"
  {
    assert Tag(ProductNameKey, "A") == "product_name:A";
    assert Tag(ProductUidKey, "p1") == "product_uid:p1";
  }
}
