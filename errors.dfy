/** The exception kinds raised by the modelled code, as values. */
module Errors {

  datatype Error =
    | ArgumentError(message: string)          // ArgumentException
    | InvalidMessage                          // InvalidMessageException
    | UnavailableProducer(brokerId: int)      // UnavailableProducerException
    | NoBrokersForPartition                   // NoBrokersForPartitionException
    | UnknownTopicOrPartition                 // UnknownTopicOrPartitionException
    | LeaderNotAvailable                      // LeaderNotAvailableException
    | FailedToSendMessage(maxRetries: int)    // FailedToSendMessageException, "after <maxRetries> tries"
    | SerializationFailed                     // whatever an encoder throws
    | NullReference                           // NullReferenceException
    | BufferUnderflow                         // reading past a buffer's limit
    | BufferOverflow                          // writing past a buffer's limit
    | IndexOutOfRange                         // an absolute index outside the buffer
    | InvalidRegex(message: string)           // the Exception thrown by TopicFilter
    | SendComplete                            // ExpectIncomplete on a finished send
}
