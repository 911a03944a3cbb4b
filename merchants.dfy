/**
 * The merchant directory: a static, read-only table from merchant identifier
 * to descriptive metadata, and its lookup, which never fails because every
 * unknown identifier resolves to one fixed fallback record.
 */
module Merchants {

  datatype RiskLevel = Low | Medium | High

  datatype Merchant = Merchant(
    name: string,
    category: string,
    location: string,
    riskLevel: RiskLevel,
    mccCode: string)

  /** The static directory, keyed by merchant identifier. */
  const MerchantDb: map<string, Merchant> := map[
    "MCC_5411_12345" := Merchant("Whole Foods Market", "Grocery Store",
                                 "123 Main St, New York, NY", Low, "5411"),
    "MCC_5812_67890" := Merchant("McDonald's", "Fast Food Restaurant",
                                 "456 Oak Ave, Los Angeles, CA", Medium, "5812"),
    "MCC_5999_11111" := Merchant("Suspicious Store", "Unknown Business",
                                 "999 Dark Alley, High Risk City", High, "5999"),
    "MCC_4121_22222" := Merchant("Uber", "Transportation Service",
                                 "San Francisco, CA", Low, "4121")
  ]

  /** The record returned for every identifier the directory does not know. */
  const UnknownMerchant: Merchant :=
    Merchant("Unknown Merchant", "Unknown Category", "Unknown Location", Medium, "0000")

  /** A merchant category code: exactly four decimal digits. */
  predicate IsMccCode(s: string) {
    |s| == 4 && forall i :: 0 <= i < |s| ==> '0' <= s[i] <= '9'
  }

  /** Directory lookup with fallback (`MERCHANT_DB.get(merchant_id, {...})`). */
  function Lookup(merchantId: string): (m: Merchant)
    ensures merchantId in MerchantDb ==> m == MerchantDb[merchantId]
    ensures merchantId !in MerchantDb ==> m == UnknownMerchant
    ensures IsMccCode(m.mccCode)
  {
    if merchantId in MerchantDb then MerchantDb[merchantId] else UnknownMerchant
  }

  /** The fallback record is distinguishable from every directory entry. */
  lemma FallbackNotInDirectory()
    ensures forall k :: k in MerchantDb ==> MerchantDb[k] != UnknownMerchant
  {
  }

  /** A lookup yields the fallback record exactly when the identifier is unknown. */
  lemma LookupFallbackIffUnknown(merchantId: string)
    ensures Lookup(merchantId) == UnknownMerchant <==> merchantId !in MerchantDb
  {
  }

  /** Every directory key has the shape `MCC_<mcc>_<id>`, and its code agrees with the record's. */
  lemma KeysEmbedMccCode(merchantId: string)
    requires merchantId in MerchantDb
    ensures |merchantId| == 14 && merchantId[..4] == "MCC_" && merchantId[8] == '_'
    ensures merchantId[4..8] == MerchantDb[merchantId].mccCode
  {
    if merchantId == "MCC_5411_12345" {
      assert merchantId[4..8] == "5411";
    } else if merchantId == "MCC_5812_67890" {
      assert merchantId[4..8] == "5812";
    } else if merchantId == "MCC_5999_11111" {
      assert merchantId[4..8] == "5999";
    } else {
      assert merchantId == "MCC_4121_22222";
      assert merchantId[4..8] == "4121";
    }
  }

  /** The directory holds exactly the four sample merchants, under distinct identifiers and codes. */
  lemma DirectoryContents()
    ensures MerchantDb.Keys == {"MCC_5411_12345", "MCC_5812_67890", "MCC_5999_11111", "MCC_4121_22222"}
    ensures forall k, l :: k in MerchantDb && l in MerchantDb && MerchantDb[k].mccCode == MerchantDb[l].mccCode ==> k == l
  {
  }

  /** The fallback record: unknown on every descriptive field, Medium risk, and code "0000", which no directory entry uses. */
  lemma FallbackRecord(merchantId: string)
    requires merchantId !in MerchantDb
    ensures Lookup(merchantId) == Merchant("Unknown Merchant", "Unknown Category", "Unknown Location", Medium, "0000")
    ensures forall k :: k in MerchantDb ==> MerchantDb[k].mccCode != Lookup(merchantId).mccCode
  {
  }

  /** A sample identifier from the directory returns its own entry. */
  lemma LookupExamples()
    ensures Lookup("MCC_5999_11111").name == "Suspicious Store"
    ensures Lookup("MCC_5999_11111").riskLevel == High
  {
  }

  /** The empty identifier and an unknown one both get the fallback record. */
  lemma LookupFallbackExamples()
    ensures Lookup("").riskLevel == Medium && Lookup("").mccCode == "0000"
    ensures Lookup("nonexistent_key") == UnknownMerchant
  {
  }
}
