/** The rows shared by the tag lifecycle: categories, asset captures and
    asset tags. Columns no handler here reads or decides on are kept as
    opaque text in `attrs`. */
module Records {
  import opened Common

  /** A fixed-asset category; its main code followed by its sub code is the
      prefix of every tag issued for it. */
  datatype FatsCategory = FatsCategory(
    mainCatCode: string,
    mainCategoryDesc: string,
    mainDescription: string,
    subCategoryCode: string,
    subCategoryDesc: string)

  /** A captured asset of some category; `quantity` is null (None) or the
      number of physical units, and `isGenerated` records that its tags were
      minted. */
  datatype AssetCapture = AssetCapture(
    fatsCategoryId: Id,
    quantity: Option<int>,
    isGenerated: bool,
    attrs: map<string, string>)

  /** A tag minted for one unit of a capture. */
  datatype AssetTag = AssetTag(
    tagNumber: string,
    assetCaptureId: Id,
    isVerified: bool,
    attrs: map<string, string>)
}
