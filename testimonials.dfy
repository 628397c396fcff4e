/** The static testimonial records the carousel cycles through. */
module Testimonials {

  /** One quoted piece of feedback. `emailForGravatar` only feeds the avatar
      lookup. */
  datatype Testimonial = Testimonial(
    id: string,
    text: string,
    author: string,
    role: string,
    emailForGravatar: string)

  /** The fixed, ordered sequence shown on the page; it is never mutated. */
  const TestimonialsData: seq<Testimonial> := [
    Testimonial(
      "t1",
      "Encontré una paz que no sabía que estaba buscando. Pude ver mi historia familiar con amor y comprensión.",
      "A. Martínez",
      "Cliente Satisfecho",
      "amartinez.test@example.com"),
    Testimonial(
      "t2",
      "El proceso fue revelador y me ayudó a desbloquear patrones que se repetían en mi vida. Muy agradecida.",
      "L. Gómez",
      "Participante de Taller",
      "lgomez.test@example.com"),
    Testimonial(
      "t3",
      "Gloria tiene una sensibilidad y profesionalismo excepcionales. Me sentí acompañada en todo momento.",
      "C. Fernández",
      "Cliente Individual",
      "cfernandez.test@example.com")
  ]

  /** Ids identify records: no two positions share one. */
  predicate DistinctIds(ts: seq<Testimonial>)
  {
    forall i, j :: 0 <= i < j < |ts| ==> ts[i].id != ts[j].id
  }

  /** The carousel cycles over three testimonials, so its modulus is 3. */
  lemma TestimonialCount()
    ensures |TestimonialsData| == 3
  {
  }

  /** The page holds three testimonials, t1, t2 and t3 in that order, with
      distinct ids, so the carousel's modulus is 3 and never 0. */
  lemma TestimonialsShape()
    ensures |TestimonialsData| == 3
    ensures TestimonialsData[0].id == "t1"
    ensures TestimonialsData[1].id == "t2"
    ensures TestimonialsData[2].id == "t3"
    ensures DistinctIds(TestimonialsData)
  {
  }
}
