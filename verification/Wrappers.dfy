/** What the other modules share. */
module Wrappers {

  /** The optional value that stands for Go's nil slices, nil maps and nil errors. */
  datatype Option<+T> = None | Some(value: T)

  /** The tags of each instance, by its address. */
  type TagMap = map<string, seq<string>>

  /** The error values the client side tells apart: io.EOF and everything else. */
  datatype Error = EOF | Failure(text: string)
}
