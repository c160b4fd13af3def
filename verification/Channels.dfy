/** The contents of one Hub subscription channel, as values (hub.go:14-82). */
module Channels {
  import opened Prelude

  /** A bounded channel: what is buffered, and whether it has been closed. */
  datatype Chan = Chan(cap: nat, buf: seq<Event>, closed: bool) {

    /** One broadcast as this channel sees it: buffered when there is room, dropped (closed) when full. */
    function Offer(e: Event): Chan {
      if closed then this
      else if |buf| < cap then this.(buf := buf + [e])
      else this.(closed := true)
    }

    function Close(): Chan {
      this.(closed := true)
    }

    /** Receiving takes the oldest buffered event, whether or not the channel is closed. */
    function Rest(): Chan
      requires buf != []
    {
      this.(buf := buf[1..])
    }
  }
}
