/** The fields taken from a geolocation provider's answer, each by a reading of its own. */
module ProviderJson {
  import opened Basics
  import opened Unicode
  import opened JsonGrammar
  import Scan = JsonScan
  import opened JsonParsers
  import JsonCorrectness

  datatype ProviderFields = ProviderFields(
    address: Option<Bytes>, hostname: Option<Bytes>, city: Option<Bytes>, region: Option<Bytes>,
    country: Option<Bytes>, countryCode: Option<Bytes>, asn: Option<Bytes>, organization: Option<Bytes>)

  const NOTHING := ProviderFields(None, None, None, None, None, None, None, None)

  /** What a document says under the names of the first provider. */
  function IpinfoFields(d: Document): ProviderFields {
    NOTHING.(
      address := Field(d, Ascii("ip")), hostname := Field(d, Ascii("hostname")), city := Field(d, Ascii("city")),
      region := Field(d, Ascii("region")), countryCode := Field(d, Ascii("country")),
      organization := Field(d, Ascii("org")))
  }

  /** What a document says under the names of the second provider. */
  function IpapiFields(d: Document): ProviderFields {
    NOTHING.(
      address := Field(d, Ascii("ip")), city := Field(d, Ascii("city")), region := Field(d, Ascii("region")),
      country := Field(d, Ascii("country_name")), countryCode := Field(d, Ascii("country_code")),
      asn := Field(d, Ascii("asn")), organization := Field(d, Ascii("org")))
  }

  /** All fields come from one and the same document, or the text is no document and there is none. */
  method ParseIpinfo(json: Bytes) returns (fields: ProviderFields)
    ensures forall d: Document :: DocumentOk(d) && PrintDocument(d) == json ==> fields == IpinfoFields(d)
    ensures (forall d: Document :: DocumentOk(d) ==> PrintDocument(d) != json) ==> fields == NOTHING
  {
    var address := GetString(json, Ascii("ip"));
    var hostname := GetString(json, Ascii("hostname"));
    var city := GetString(json, Ascii("city"));
    var region := GetString(json, Ascii("region"));
    var countryCode := GetString(json, Ascii("country"));
    var organization := GetString(json, Ascii("org"));
    fields := NOTHING.(address := address, hostname := hostname, city := city, region := region,
      countryCode := countryCode, organization := organization);
    TheDocument(json);
  }

  method ParseIpapi(json: Bytes) returns (fields: ProviderFields)
    ensures forall d: Document :: DocumentOk(d) && PrintDocument(d) == json ==> fields == IpapiFields(d)
    ensures (forall d: Document :: DocumentOk(d) ==> PrintDocument(d) != json) ==> fields == NOTHING
  {
    var address := GetString(json, Ascii("ip"));
    var city := GetString(json, Ascii("city"));
    var region := GetString(json, Ascii("region"));
    var country := GetString(json, Ascii("country_name"));
    var countryCode := GetString(json, Ascii("country_code"));
    var asn := GetString(json, Ascii("asn"));
    var organization := GetString(json, Ascii("org"));
    fields := NOTHING.(address := address, city := city, region := region, country := country,
      countryCode := countryCode, asn := asn, organization := organization);
    TheDocument(json);
  }

  /** The document a text spells, if it spells one, is the one the reader finds. */
  lemma TheDocument(json: Bytes)
    ensures Scan.ScanDocument(json).Some? ==>
      DocumentOk(Scan.ScanDocument(json).value) && PrintDocument(Scan.ScanDocument(json).value) == json
    ensures forall d: Document :: DocumentOk(d) && PrintDocument(d) == json ==> Scan.ScanDocument(json) == Some(d)
  {
    if Scan.ScanDocument(json).Some? { JsonCorrectness.DocumentSound(json); }
    forall d: Document | DocumentOk(d) && PrintDocument(d) == json ensures Scan.ScanDocument(json) == Some(d) {
      JsonCorrectness.DocumentComplete(d);
    }
  }
}
