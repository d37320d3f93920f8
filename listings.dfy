/** The listing record as the components read it. The declared `Listing`
    interface (src/types/Listing.ts) has `askingPrice` and lacks the status and
    bid fields, so this record is built from the fields the components and
    their test fixtures actually use. */
module Listings {
  import opened Common

  /** `BikeCategory` of src/types/Listing.ts. */
  datatype BikeCategory = CrossCountry | Trail | Enduro | Downhill | DirtJump | Gravel

  /** A listing. Prices are whole currency units; `auctionEndsAt` is the end
      time in milliseconds since the epoch (`Date.getTime()`); `status` is the
      free-form status string the components compare against "active",
      "ended" and "sold". */
  datatype Listing = Listing(
    id: string,
    brand: string,
    model: string,
    year: int,
    category: BikeCategory,
    images: seq<string>,
    status: string,
    startingBid: int,
    currentBid: Option<int>,
    buyItNowPrice: Option<int>,
    auctionEndsAt: int
  )
}
