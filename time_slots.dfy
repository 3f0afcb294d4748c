/** The time slot shared by the availability editor and the backend entity
    (`AgentAvailability.TimeSlot`): free text times and an active flag. No
    format or ordering is imposed on the times anywhere in the system. */
module TimeSlots {

  datatype TimeSlot = TimeSlot(startTime: string, endTime: string, isActive: bool)
}
