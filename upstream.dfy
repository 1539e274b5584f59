/** The upstream collaborators, kept abstract: a client is an identity, and a
    ByteStreamer is the per-client wrapper that resolves file properties and
    produces the chunked body (neither operation is modelled here). */
module Upstream {
  import opened Common

  /** One upstream API client; only its identity matters to the streaming core. */
  class UpstreamClient {
    constructor () {}
  }

  /** `ByteStreamer(client)`: wraps one client for its whole lifetime. */
  class ByteStreamer {
    const client: UpstreamClient

    constructor (client: UpstreamClient)
      ensures this.client == client
    {
      this.client := client;
    }
  }

  /** What `get_file_properties` returns for a message. */
  datatype FileProperties = FileProperties(
    uniqueId: string,
    fileSize: nat,
    mimeType: Option<string>,
    fileName: Option<string>)
}
