/** The backend's catalog records (Review.java and the product document) as values. */
module Catalog {
  import opened Wrappers

  /** Review.java: who wrote it, the rating and the text; `date` is a creation
      timestamp taken from the clock and is not modelled. */
  datatype Review = Review(userId: string, username: string, reviewBody: string, rating: int)

  /** A product document. Its `reviews` list may be null, hence the Option. */
  datatype Product = Product(
    id: string,
    title: string,
    description: string,
    price: real,
    images: seq<string>,
    tags: seq<string>,
    reviews: Option<seq<Review>>)
}
