/** Where a message lives: requests for messages go out one per channel, and one for all the rest. */
module Locations {

  datatype Channel = Channel(id: int)

  /** Which table a message belongs to: the common one, or that of a channel. */
  datatype Where = Common | InChannel(channel: Channel)
}
