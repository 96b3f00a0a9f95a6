/** Samples and the channel they are sent on. */
module Metrics {

  /** A metric's name, its value and its label values. Values are exact reals. */
  datatype Sample = Sample(metric: string, value: real, labels: seq<string>)

  function DbLabel(db: string): string { "db" + db }

  class Channel {
    var samples: seq<Sample>

    constructor ()
      ensures samples == []
    {
      samples := [];
    }

    method Emit(s: Sample)
      modifies this
      ensures samples == old(samples) + [s]
    {
      samples := samples + [s];
    }

    method EmitAll(ss: seq<Sample>)
      modifies this
      ensures samples == old(samples) + ss
    {
      samples := samples + ss;
    }
  }
}
