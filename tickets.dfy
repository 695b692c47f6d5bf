/**
 * The ticket record shared by the form, the queue and the template processor
 * (`TicketFormData` in src/types/ticket.ts). Every field is text as typed by the user;
 * `id` is present only on tickets that have been added to the queue.
 */
module Tickets {

  import opened Wrappers

  datatype TicketFormData = TicketFormData(
    id: Option<string>,
    ticketNumber: string,
    departureStation: string,
    arrivalStation: string,
    trainNumber: string,
    departureTime: string,
    date: string,
    seatNumber: string,
    carNumber: string,
    price: string,
    seatType: string,
    passengerName: string,
    idNumber: string)
}
