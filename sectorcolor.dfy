/** `getSectorColor` from the import script: a fixed table with a slate-grey default. */
module SectorColor {
  const DefaultColor: string := "#64748b"

  /** The twenty sectors of the funding tracker and their badge colours. */
  const ColorMap: map<string, string> := map[
    "AI & Machine Learning" := "#8b5cf6",
    "SaaS & Enterprise" := "#3b82f6",
    "FinTech" := "#eab308",
    "HealthTech" := "#10b981",
    "CleanTech & Energy" := "#84cc16",
    "Cybersecurity" := "#f43f5e",
    "E-commerce & Retail" := "#f59e0b",
    "FoodTech & AgriTech" := "#22c55e",
    "PropTech & Real Estate" := "#06b6d4",
    "EdTech" := "#14b8a6",
    "Mobility & Logistics" := "#3b82f6",
    "DeepTech & Hardware" := "#6366f1",
    "Media & Entertainment" := "#ec4899",
    "BioTech & Pharma" := "#10b981",
    "HRTech" := "#8b5cf6",
    "LegalTech" := "#64748b",
    "SpaceTech" := "#1e3a8a",
    "Gaming" := "#a855f7",
    "InsurTech" := "#0ea5e9",
    "MarTech" := "#f97316"
  ]

  const Palette: set<string> := {"#06b6d4", "#0ea5e9", "#10b981", "#14b8a6", "#1e3a8a", "#22c55e", "#3b82f6", "#6366f1", "#64748b", "#84cc16", "#8b5cf6", "#a855f7", "#eab308", "#ec4899", "#f43f5e", "#f59e0b", "#f97316"}

  predicate IsHexDigit(c: char) {
    '0' <= c <= '9' || 'a' <= c <= 'f'
  }

  /** A CSS colour `#rrggbb` in lower case. */
  predicate IsHexColor(s: string) {
    |s| == 7 && s[0] == '#' && forall i :: 1 <= i < 7 ==> IsHexDigit(s[i])
  }

  /**
   * `colorMap[sectorName] || '#64748b'`: every value in the table is a
   * non-empty string, so the default applies exactly to names outside it.
   */
  function GetSectorColor(sectorName: string): (color: string)
    ensures sectorName in ColorMap ==> color == ColorMap[sectorName]
    ensures sectorName !in ColorMap ==> color == DefaultColor
  {
    if sectorName in ColorMap && ColorMap[sectorName] != "" then ColorMap[sectorName] else DefaultColor
  }

  /** Every value of the table, and the default, is a `#rrggbb` colour. */
  lemma ColorsAreHex()
    ensures IsHexColor(DefaultColor)
    ensures forall name :: name in ColorMap ==> IsHexColor(ColorMap[name])
  {
    assert forall v :: v in Palette ==> IsHexColor(v);
    assert DefaultColor in Palette;
    assert forall v :: v in ColorMap.Values ==> v in Palette;
  }

  /** Whatever the name, the badge gets a well-formed colour. */
  lemma SectorColorIsHex(sectorName: string)
    ensures IsHexColor(GetSectorColor(sectorName))
  {
    ColorsAreHex();
  }
}
