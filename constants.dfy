// The reference data: the three truck classes and the item catalog.

module Constants {
  import opened Types

  const TRUCKS: seq<TruckDef> := [
    TruckDef(L300, "L300", 3000, 2500, "Maks 3 Ton. Kecil dan lincah."),
    TruckDef(ENGKEL, "Truk Engkel", 5000, 4300, "Maks 5 Ton. 4 roda."),
    TruckDef(DOUBLE, "Truk Double", 10000, 7800, "Maks 10 Ton. 6 roda.")
  ]

  const ITEMS: seq<ItemDef> := [
    ItemDef("karung_50kg", "Karung Besar 50kg (Umum/Gula/Kedelai)", Sack, 50,
            Some("Satu palet 40 karung (5 samping x 8 atas)."), "#d4a373"),
    ItemDef("karung_25kg", "Karung 25kg (Umum)", Sack, 25,
            Some("Satu palet ~70 karung (7 samping x 10 atas)."), "#e9edc9"),
    ItemDef("sagu_aks", "Sagu AKS (Karung 25kg)", Sack, 25,
            Some("Tinggi dan berat. 80/palet (8 samping x 10 atas)."), "#fefae0"),
    ItemDef("karung_sioci", "Karung Sioci DW", Sack, 25,
            Some("80/palet (8 samping x 10 atas)."), "#faedcd"),
    ItemDef("bawang_bal", "Bawang Putih Bal", Bale, 20,
            Some("48/palet (6 samping x 8 atas)."), "#e0e1dd"),
    ItemDef("tepung_beras_ketan_dus", "Dus Tepung Beras/Ketan (10kg)", Box, 10,
            Some("Ringan tapi tinggi. 150/palet (15 samping x 10 atas)."), "#8ecae6"),
    ItemDef("kacang_kupas_dus", "Kacang Kupas (Dus 25kg)", Box, 25,
            Some("65/palet (13 samping x 5 atas)."), "#ffb703"),
    ItemDef("minyak_dus", "Minyak (Dus 17kg)", Box, 17,
            Some("Muatan tinggi (bisa 10-14 tier)."), "#fb8500"),
    ItemDef("gula_vit_dus", "Gula Vit (Dus 25kg)", Box, 25,
            Some("Berat."), "#f1c0e8"),
    ItemDef("terigu_dus_1kg", "Terigu Dus isi 1kg (Total 12kg)", Box, 12,
            Some("Segitiga/Cakra/Lencana 1kg. 140/palet."), "#a2d2ff"),
    ItemDef("terigu_dus_halfkg", "Terigu Dus isi 1/2kg (Total 10kg)", Box, 10,
            Some("Segitiga/Cakra/Lencana 1/2kg. 90/palet."), "#bde0fe"),
    ItemDef("terigu_tulip", "Terigu Tulip (Dus 10kg)", Box, 10,
            Some("Berat 10kg."), "#cdb4db"),
    ItemDef("garam_pak", "Garam (Pak 8kg)", Pack, 8,
            Some("Tidak stabil. Taruh paling atas/akhir. 220/palet."), "#ffffff"),
    ItemDef("kacang_tanah_super", "Kacang Tanah Super (50kg)", Sack, 50,
            Some("Harus di atas sagu jika dicampur."), "#bc6c25"),
    ItemDef("kacang_ijo_yulex", "Kacang Ijo Yulex (25kg)", Sack, 25,
            Some("25kg."), "#606c38"),
    ItemDef("kacang_merah", "Kacang Merah (25kg)", Sack, 25,
            Some("25kg."), "#9e2a2b")
  ]

  /** No two catalog items share an id. */
  predicate DistinctItemIds(items: seq<ItemDef>)
  {
    forall i, j :: 0 <= i < j < |items| ==> items[i].id != items[j].id
  }

  /** Every catalog item weighs something. */
  predicate PositiveWeights(items: seq<ItemDef>)
  {
    forall i :: 0 <= i < |items| ==> items[i].weightKg > 0
  }

  /** There are exactly three trucks, L300, ENGKEL and DOUBLE in that order,
      and each one's target weight is strictly below its maximum. */
  lemma TrucksFacts()
    ensures |TRUCKS| == 3
    ensures TRUCKS[0].id == L300 && TRUCKS[1].id == ENGKEL && TRUCKS[2].id == DOUBLE
    ensures forall i :: 0 <= i < |TRUCKS| ==> TRUCKS[i].targetWeightKg < TRUCKS[i].maxWeightKg
  {
  }

  /** The length and three characters of an id: enough to tell the
      catalog's ids apart without comparing them in full. Exists only to keep
      the proof of distinct ids cheap: comparing all 120 pairs of ids
      character by character is far more work for the solver. */
  function IdKey(id: string): (int, char, char, char)
  {
    (|id|, if |id| > 0 then id[0] else ' ', if |id| > 2 then id[2] else ' ',
     if |id| > 7 then id[7] else ' ')
  }

  lemma ItemIdKeysDistinct()
    ensures forall i, j :: 0 <= i < j < |ITEMS| ==> IdKey(ITEMS[i].id) != IdKey(ITEMS[j].id)
  {
  }

  /** The catalog has sixteen items with distinct ids and positive weights. */
  lemma ItemsFacts()
    ensures |ITEMS| == 16
    ensures DistinctItemIds(ITEMS)
    ensures PositiveWeights(ITEMS)
  {
    ItemIdKeysDistinct();
  }
}
