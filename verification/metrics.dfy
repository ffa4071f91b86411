/** The three request counters. */
module Metrics {

  class CovenantSignerMetrics {
    var receivedSigningRequests: nat
    var successfulSigningRequests: nat
    var failedSigningRequests: nat

    constructor ()
      ensures receivedSigningRequests == successfulSigningRequests == failedSigningRequests == 0
    {
      receivedSigningRequests, successfulSigningRequests, failedSigningRequests := 0, 0, 0;
    }

    method IncReceivedSigningRequests()
      modifies this`receivedSigningRequests
      ensures receivedSigningRequests == old(receivedSigningRequests) + 1
    {
      receivedSigningRequests := receivedSigningRequests + 1;
    }

    method IncSuccessfulSigningRequests()
      modifies this`successfulSigningRequests
      ensures successfulSigningRequests == old(successfulSigningRequests) + 1
    {
      successfulSigningRequests := successfulSigningRequests + 1;
    }

    method IncFailedSigningRequests()
      modifies this`failedSigningRequests
      ensures failedSigningRequests == old(failedSigningRequests) + 1
    {
      failedSigningRequests := failedSigningRequests + 1;
    }
  }
}
