/** The machine words of the source as ranges of integers, and the result of an operation that may have none. */
module Basics {

  type U8 = n: nat | n < 0x100
  type U16 = n: nat | n < 0x1_0000
  type U32 = n: nat | n < 0x1_0000_0000
  type U64 = n: nat | n < 0x1_0000_0000_0000_0000

  type Bytes = seq<U8>

  datatype Option<T> = None | Some(value: T)

  /** The identity of one stream: the request, its execution and the output. */
  datatype StreamId = StreamId(request: U64, execution: U64, output: U32)
  {
    predicate Valid() { request != 0 && execution != 0 }
    predicate ConnectionLevel() { request == 0 && execution == 0 && output == 0 }
  }

  /** What an operation answers: done, or refused with an error code (0 where the source sets none). */
  datatype Answer = Done | Refused(code: nat)
}
