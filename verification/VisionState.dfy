/** TrafficState: what the two directions of one Vision connection know. */
module VisionState {
  import opened ByteStrings
  import opened TlsFilter
  import opened VisionParser

  /** The reader's half of InboundState or OutboundState. */
  datatype ReaderLink = ReaderLink(
    within: bool,    // WithinPaddingBuffers
    direct: bool,    // UplinkReaderDirectCopy, DownlinkReaderDirectCopy
    parser: Parser
  )

  /** The writer's half. */
  datatype WriterLink = WriterLink(
    isPadding: bool,
    direct: bool     // DownlinkWriterDirectCopy, UplinkWriterDirectCopy
  )

  class TrafficState {
    const userUuid: Bytes
    var filter: Filter
    var inboundReader: ReaderLink
    var inboundWriter: WriterLink
    var outboundReader: ReaderLink
    var outboundWriter: WriterLink

    /** NewTrafficState */
    constructor (uuid: Bytes)
      ensures userUuid == uuid && filter == FRESH_FILTER && Consistent(filter)
      ensures forall isUplink :: Reader(isUplink) == ReaderLink(true, false, FRESH)
      ensures forall isUplink :: Writer(isUplink) == WriterLink(true, false)
    {
      userUuid := uuid;
      filter := FRESH_FILTER;
      inboundReader := ReaderLink(true, false, FRESH);
      inboundWriter := WriterLink(true, false);
      outboundReader := ReaderLink(true, false, FRESH);
      outboundWriter := WriterLink(true, false);
    }

    /** An uplink reader belongs to the inbound side, a downlink reader to the outbound side. */
    function Reader(isUplink: bool): ReaderLink
      reads this
    {
      if isUplink then inboundReader else outboundReader
    }

    /** For writers it is the other way round. */
    function Writer(isUplink: bool): WriterLink
      reads `inboundWriter, `outboundWriter
    {
      if isUplink then outboundWriter else inboundWriter
    }

    method SetReader(isUplink: bool, link: ReaderLink)
      modifies this`inboundReader, this`outboundReader
      ensures Reader(isUplink) == link && Reader(!isUplink) == old(Reader(!isUplink))
    {
      if isUplink {
        inboundReader := link;
      } else {
        outboundReader := link;
      }
    }

    method SetWriter(isUplink: bool, link: WriterLink)
      modifies this`inboundWriter, this`outboundWriter
      ensures Writer(isUplink) == link && Writer(!isUplink) == old(Writer(!isUplink))
    {
      if isUplink {
        outboundWriter := link;
      } else {
        inboundWriter := link;
      }
    }
  }
}
