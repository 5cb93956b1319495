/** Optional fields that Go keeps behind a reference, shared unless copied. */
module Cells {
  import opened Prelude
  import opened KubeTime

  /** A timestamp behind a reference, as in the status of an object. */
  class TimeCell {
    var time: Time

    constructor (time: Time)
      ensures this.time == time
    {
      this.time := time;
    }
  }

  function At(c: TimeCell?): Option<Time>
    reads c
  {
    if c == null then None else Some(c.time)
  }

  /** A name behind a reference, as in the status of a client claim. */
  class NameCell {
    var name: string

    constructor (name: string)
      ensures this.name == name
    {
      this.name := name;
    }
  }

  function Named(c: NameCell?): Option<string>
    reads c
  {
    if c == null then None else Some(c.name)
  }
}
