/** The output stream a logger writes to (`std::ostream`), seen as the list of
    separate writes made to it, in order; Format.Text gives what it shows. */
module Sink {
  class Stream {
    var chunks: seq<string>

    constructor()
      ensures chunks == []
    {
      chunks := [];
    }

    /** `*out << s` */
    method Write(s: string)
      modifies this
      ensures chunks == old(chunks) + [s]
    {
      chunks := chunks + [s];
    }
  }
}
