/**
 * A row of cleaned_data.csv as both recommenders read it back: the cleaned
 * restaurant plus the `cluster` label the K-Means training step appended.
 * The empty cuisine text the cleaner writes reads back as a missing value,
 * so `cuisine` is optional; every numeric column has been filled.
 */
module Restaurants {
  import opened Wrappers

  datatype Restaurant = Restaurant(
    name: string,
    city: string,
    cuisine: Option<string>,
    rating: real,
    ratingCount: real,
    cost: real,
    address: string,
    link: string,
    cluster: int)
}
