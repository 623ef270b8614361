/** The shapes exchanged with the prescription service (models/prescription.tsx).
    They carry no behaviour of their own. */
module Models {

  /** One medicine line of a prescription request. */
  datatype Medicine = Medicine(medicineId: string, medicineName: string, quantity: int)

  /** The body of the "create prescription" call. */
  datatype PrescriptionRequest = PrescriptionRequest(patientTC: string, medicines: seq<Medicine>)
}
