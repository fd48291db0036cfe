/** The trigger handed to the continuous-build loop: rebuild or stop, with a reason text. */
module Triggers {

  datatype TriggerType = Rebuild | Stop

  datatype TriggerDetails = TriggerDetails(triggerType: TriggerType, reason: string)
}
