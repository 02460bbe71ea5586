/** The subscribers that event deliveries are addressed to. */
module Subscribers {
  import opened Prelude

  const SLACK := Name("slack")
}
