/**
 * The records the scanner reads from the transaction provider, as decoded JSON.
 * Only the fields the scanner touches are kept.
 */
module Records {
  import opened Base

  /** One element of a transaction's `inputs` or `out` list; its `script` key may be missing. */
  datatype Entry = Entry(script: Option<string>)

  /**
   * A transaction record: its `hash` and its `inputs` and `out` lists, each of
   * which may be missing from the record (`tx.get('inputs', [])`).
   */
  datatype Tx = Tx(hash: string, inputs: Option<seq<Entry>>, outputs: Option<seq<Entry>>)

  /** A decoded provider response: the address's total `n_tx` and this page's `txs`. */
  datatype Response = Response(ntx: int, txs: seq<Tx>)

  /**
   * The remote provider for one address, seen from the scanner. `first` is the
   * outcome of the initial offset-0 request (`None` when it raises a request
   * error); `page(o)` is the `txs` list a successful request at offset `o` returns.
   */
  datatype Provider = Provider(first: Option<Response>, page: int -> seq<Tx>)

  /** The outcome of one attempt inside the retry loop of a page request. */
  datatype Attempt = Failed | Succeeded
}
